/** While the recovery parser reads a printed example, its container stack mirrors the brackets that are
    open at every line. */
module KeyTreeStack {
  import opened Text
  import opened KeyTree
  import opened KeyTreePrint

  // ---- brackets of the text --------------------------------------------------------------

  /** How many brackets are open after each printed line, when `h` are open before the first. */
  function Heights(doc: Doc, h: nat): (r: seq<nat>)
    decreases doc, 1
  {
    match doc
    case Atom(_, _) => [h]
    case Dict(fields, _) => if fields == [] then [h] else [h + 1] + FieldHeights(doc, |fields|, h + 1) + [h]
    case List(items, _) => if items == [] then [h] else [h + 1] + ItemHeights(doc, |items|, h + 1) + [h]
  }

  function FieldHeights(doc: Doc, n: nat, h: nat): (r: seq<nat>)
    requires doc.Dict? && n <= |doc.fields|
    decreases doc, 0, n
  {
    if n == 0 then [] else FieldHeights(doc, n - 1, h) + Heights(doc.fields[n - 1].value, h)
  }

  function ItemHeights(doc: Doc, n: nat, h: nat): (r: seq<nat>)
    requires doc.List? && n <= |doc.items|
    decreases doc, 0, n
  {
    if n == 0 then [] else ItemHeights(doc, n - 1, h) + Heights(doc.items[n - 1], h)
  }

  // ---- the stack, line by line ---------------------------------------------------------------

  /** How high the stack is after each line. */
  function StackHeights(st: State, lines: seq<string>): (r: seq<nat>)
    requires st.Valid()
    decreases |lines|
  {
    if lines == [] then []
    else
      var next := Step(st, lines[0]);
      [|next.stack|] + StackHeights(next, lines[1..])
  }

  function HeightAfter(st: State, lines: seq<string>): (r: nat)
    requires st.Valid()
  {
    |Run(st, lines).stack|
  }

  lemma {:induction false} StackHeightsLength(st: State, lines: seq<string>)
    requires st.Valid()
    ensures |StackHeights(st, lines)| == |lines|
    decreases |lines|
  {
    if lines != [] {
      StackHeightsLength(Step(st, lines[0]), lines[1..]);
    }
  }

  lemma RunCons(st: State, line: string, lines: seq<string>)
    requires st.Valid()
    ensures Run(st, [line] + lines) == Run(Step(st, line), lines)
  {
    assert ([line] + lines)[1..] == lines;
  }

  lemma {:induction false} StackHeightAt(st: State, lines: seq<string>, i: nat)
    requires st.Valid() && i < |lines| == |StackHeights(st, lines)|
    ensures StackHeights(st, lines)[i] == HeightAfter(st, lines[..i + 1])
    decreases |lines|
  {
    var next := Step(st, lines[0]);
    assert lines[..i + 1] == [lines[0]] + lines[1..][..i];
    RunCons(st, lines[0], lines[1..][..i]);
    if i > 0 {
      StackHeightAt(next, lines[1..], i - 1);
    }
  }

  /** After each line the stack is as high as `heights` says. */
  ghost predicate Mirrors(st: State, lines: seq<string>, heights: seq<nat>)
    requires st.Valid()
  {
    StackHeights(st, lines) == heights
  }

  lemma MirrorsOne(st: State, line: string, h: nat)
    requires st.Valid() && |Step(st, line).stack| == h
    ensures Mirrors(st, [line], [h])
  {
  }

  lemma MirrorsConcat(st: State, a: seq<string>, ha: seq<nat>, b: seq<string>, hb: seq<nat>)
    requires st.Valid() && Mirrors(st, a, ha) && Mirrors(Run(st, a), b, hb)
    ensures Mirrors(st, a + b, ha + hb)
  {
    HeightsConcat(st, a, b);
  }

  lemma {:induction false} HeightsConcat(st: State, a: seq<string>, b: seq<string>)
    requires st.Valid()
    ensures StackHeights(st, a + b) == StackHeights(st, a) + StackHeights(Run(st, a), b)
    decreases |a|
  {
    if a == [] {
      assert a + b == b;
    } else {
      assert (a + b)[1..] == a[1..] + b;
      HeightsConcat(Step(st, a[0]), a[1..], b);
    }
  }

  lemma MirrorsBracketed(st: State, open: string, between: seq<string>, inner: seq<nat>, close: string, h: nat,
                         end: nat)
    requires st.Valid() && |Step(st, open).stack| == h && Mirrors(Step(st, open), between, inner)
    requires |Step(Run(Step(st, open), between), close).stack| == end
    ensures Mirrors(st, [open] + between + [close], [h] + inner + [end])
  {
    MirrorsOne(st, open, h);
    RunOne(st, open);
    MirrorsConcat(st, [open], [h], between, inner);
    RunConcat(st, [open], between);
    MirrorsOne(Run(st, [open] + between), close, end);
    MirrorsConcat(st, [open] + between, [h] + inner, [close], [end]);
  }

  // ---- printed examples -------------------------------------------------------------------------

  lemma {:induction false} FieldMirrors(st: State, doc: Doc, key: string, margin: string, pad: string)
    requires st.Valid() && st.cells[st.Top()].DictCell?
    requires Printable(doc) && IsKey(key) && IsMargin(margin, pad)
    ensures Mirrors(st, Print(doc, key, margin, pad), Heights(doc, |st.stack|))
    decreases doc, 2
  {
    if doc.Dict? && doc.fields != [] {
      DictMirrors(st, doc, key, margin, pad);
    } else if doc.List? && doc.items != [] {
      ListMirrors(st, doc, key, margin, pad);
    } else {
      ReadField(st, doc, key, margin, pad);
      var line := Print(doc, key, margin, pad)[0];
      RunOne(st, line);
      MirrorsOne(st, line, |st.stack|);
    }
  }

  lemma {:induction false} DictMirrors(st: State, doc: Doc, key: string, margin: string, pad: string)
    requires st.Valid() && st.cells[st.Top()].DictCell?
    requires Printable(doc) && IsKey(key) && IsMargin(margin, pad)
    requires doc.Dict? && doc.fields != []
    ensures Mirrors(st, Print(doc, key, margin, pad), Heights(doc, |st.stack|))
    decreases doc, 1
  {
    StepKey(st, margin, key, "{");
    EmptyContainerIsClosed('{', '}', "");
    FieldsBracketed(st, Line(margin, key, "{"), doc, margin, pad);
  }

  lemma {:induction false} ListMirrors(st: State, doc: Doc, key: string, margin: string, pad: string)
    requires st.Valid() && st.cells[st.Top()].DictCell?
    requires Printable(doc) && IsKey(key) && IsMargin(margin, pad)
    requires doc.List? && doc.items != []
    ensures Mirrors(st, Print(doc, key, margin, pad), Heights(doc, |st.stack|))
    decreases doc, 1
  {
    StepKey(st, margin, key, "[");
    EmptyContainerIsClosed('[', ']', "");
    ItemsBracketed(st, Line(margin, key, "["), doc, margin, pad);
  }

  /** Fields between a line that opens an empty dictionary and the line that closes it. */
  lemma {:induction false} FieldsBracketed(st: State, open: string, doc: Doc, margin: string, pad: string)
    requires st.Valid() && Printable(doc) && IsMargin(margin, pad) && doc.Dict? && doc.fields != []
    requires var entered := Step(st, open);
             |entered.stack| == |st.stack| + 1 && entered.cells[entered.Top()] == DictCell(map[])
    ensures Mirrors(st,
                    [open] + PrintFields(doc, |doc.fields|, margin + pad, pad) + [Line(margin, "", "}" + Comma(doc))],
                    Heights(doc, |st.stack|))
    decreases doc, 0, |doc.fields| + 1
  {
    var entered, h := Step(st, open), |st.stack|;
    var between := PrintFields(doc, |doc.fields|, margin + pad, pad);
    FieldsMirror(entered, doc, margin + pad, pad);
    ReadFields(entered, doc, |doc.fields|, margin + pad, pad);
    StepClose(Run(entered, between), margin, "}" + Comma(doc));
    MirrorsBracketed(st, open, between, FieldHeights(doc, |doc.fields|, h + 1), Line(margin, "", "}" + Comma(doc)),
                     h + 1, h);
  }

  lemma {:induction false} ItemsBracketed(st: State, open: string, doc: Doc, margin: string, pad: string)
    requires st.Valid() && Printable(doc) && IsMargin(margin, pad) && doc.List? && doc.items != []
    requires var entered := Step(st, open);
             |entered.stack| == |st.stack| + 1 && entered.cells[entered.Top()] == ListCell([])
    ensures Mirrors(st, [open] + PrintItems(doc, |doc.items|, margin + pad, pad) + [Line(margin, "", "]" + Comma(doc))],
                    Heights(doc, |st.stack|))
    decreases doc, 0, |doc.items| + 1
  {
    var entered, h := Step(st, open), |st.stack|;
    var between := PrintItems(doc, |doc.items|, margin + pad, pad);
    ItemsMirror(entered, doc, margin + pad, pad);
    ReadItems(entered, doc, |doc.items|, margin + pad, pad);
    StepClose(Run(entered, between), margin, "]" + Comma(doc));
    MirrorsBracketed(st, open, between, ItemHeights(doc, |doc.items|, h + 1), Line(margin, "", "]" + Comma(doc)),
                     h + 1, h);
  }

  lemma {:induction false} FieldsMirror(st: State, doc: Doc, margin: string, pad: string)
    requires st.Valid() && st.cells[st.Top()] == DictCell(map[])
    requires doc.Dict? && Printable(doc) && IsMargin(margin, pad)
    ensures Mirrors(st, PrintFields(doc, |doc.fields|, margin, pad), FieldHeights(doc, |doc.fields|, |st.stack|))
    decreases doc, 0, |doc.fields|
  {
    forall i | 0 <= i < |doc.fields| ensures FieldMirrored(st, doc, i, margin, pad) {
      NextFieldMirrors(st, doc, i, margin, pad);
    }
    JoinFields(st, doc, |doc.fields|, margin, pad);
  }

  /** The lines of the field at `i` mirror its brackets once the ones before it are read. */
  ghost predicate FieldMirrored(st: State, doc: Doc, i: nat, margin: string, pad: string)
    requires st.Valid() && doc.Dict? && i < |doc.fields|
  {
    Mirrors(Run(st, PrintFields(doc, i, margin, pad)), Print(doc.fields[i].value, doc.fields[i].key, margin, pad),
            Heights(doc.fields[i].value, |st.stack|))
  }

  lemma {:induction false} JoinFields(st: State, doc: Doc, n: nat, margin: string, pad: string)
    requires st.Valid() && doc.Dict? && n <= |doc.fields|
    requires forall i :: 0 <= i < n ==> FieldMirrored(st, doc, i, margin, pad)
    ensures Mirrors(st, PrintFields(doc, n, margin, pad), FieldHeights(doc, n, |st.stack|))
  {
    if n != 0 {
      JoinFields(st, doc, n - 1, margin, pad);
      assert FieldMirrored(st, doc, n - 1, margin, pad);
      MirrorsConcat(st, PrintFields(doc, n - 1, margin, pad), FieldHeights(doc, n - 1, |st.stack|),
                    Print(doc.fields[n - 1].value, doc.fields[n - 1].key, margin, pad),
                    Heights(doc.fields[n - 1].value, |st.stack|));
    }
  }

  lemma {:induction false} NextFieldMirrors(st: State, doc: Doc, n: nat, margin: string, pad: string)
    requires st.Valid() && st.cells[st.Top()] == DictCell(map[])
    requires doc.Dict? && Printable(doc) && n < |doc.fields| && IsMargin(margin, pad)
    ensures FieldMirrored(st, doc, n, margin, pad)
    decreases doc, 0, n
  {
    var mid := Run(st, PrintFields(doc, n, margin, pad));
    FieldsKeepTop(st, doc, n, margin, pad);
    PrintableField(doc, n);
    FieldMirrors(mid, doc.fields[n].value, doc.fields[n].key, margin, pad);
  }

  lemma FieldsKeepTop(st: State, doc: Doc, n: nat, margin: string, pad: string)
    requires st.Valid() && st.cells[st.Top()] == DictCell(map[])
    requires doc.Dict? && Printable(doc) && n <= |doc.fields| && IsMargin(margin, pad)
    ensures var mid := Run(st, PrintFields(doc, n, margin, pad));
            mid.cells[mid.Top()].DictCell? && |mid.stack| == |st.stack|
  {
    ReadFields(st, doc, n, margin, pad);
  }

  lemma PrintableItem(doc: Doc, i: nat)
    requires doc.List? && Printable(doc) && i < |doc.items|
    ensures Printable(doc.items[i]) && (doc.items[i].Atom? || (doc.items[i].Dict? && doc.items[i].fields != []))
  {
  }

  lemma {:induction false} ItemsMirror(st: State, doc: Doc, margin: string, pad: string)
    requires st.Valid() && st.cells[st.Top()] == ListCell([])
    requires doc.List? && Printable(doc) && IsMargin(margin, pad)
    ensures Mirrors(st, PrintItems(doc, |doc.items|, margin, pad), ItemHeights(doc, |doc.items|, |st.stack|))
    decreases doc, 0, |doc.items|
  {
    forall i | 0 <= i < |doc.items| ensures ItemMirrored(st, doc, i, margin, pad) {
      NextItemMirrors(st, doc, i, margin, pad);
    }
    JoinItems(st, doc, |doc.items|, margin, pad);
  }

  /** The lines of the item at `i` mirror its brackets once the ones before it are read. */
  ghost predicate ItemMirrored(st: State, doc: Doc, i: nat, margin: string, pad: string)
    requires st.Valid() && doc.List? && i < |doc.items|
  {
    Mirrors(Run(st, PrintItems(doc, i, margin, pad)), Print(doc.items[i], "", margin, pad),
            Heights(doc.items[i], |st.stack|))
  }

  lemma {:induction false} JoinItems(st: State, doc: Doc, n: nat, margin: string, pad: string)
    requires st.Valid() && doc.List? && n <= |doc.items|
    requires forall i :: 0 <= i < n ==> ItemMirrored(st, doc, i, margin, pad)
    ensures Mirrors(st, PrintItems(doc, n, margin, pad), ItemHeights(doc, n, |st.stack|))
  {
    if n != 0 {
      JoinItems(st, doc, n - 1, margin, pad);
      assert ItemMirrored(st, doc, n - 1, margin, pad);
      MirrorsConcat(st, PrintItems(doc, n - 1, margin, pad), ItemHeights(doc, n - 1, |st.stack|),
                    Print(doc.items[n - 1], "", margin, pad),
                    Heights(doc.items[n - 1], |st.stack|));
    }
  }

  lemma {:induction false} NextItemMirrors(st: State, doc: Doc, n: nat, margin: string, pad: string)
    requires st.Valid() && st.cells[st.Top()] == ListCell([])
    requires doc.List? && Printable(doc) && n < |doc.items| && IsMargin(margin, pad)
    ensures ItemMirrored(st, doc, n, margin, pad)
    decreases doc, 0, n
  {
    var mid := Run(st, PrintItems(doc, n, margin, pad));
    ItemsKeepTop(st, doc, n, margin, pad);
    PrintableItem(doc, n);
    ItemMirrors(mid, doc.items[n], margin, pad);
  }

  lemma ItemsKeepTop(st: State, doc: Doc, n: nat, margin: string, pad: string)
    requires st.Valid() && st.cells[st.Top()] == ListCell([])
    requires doc.List? && Printable(doc) && n <= |doc.items| && IsMargin(margin, pad)
    ensures var mid := Run(st, PrintItems(doc, n, margin, pad));
            mid.cells[mid.Top()].ListCell? && |mid.stack| == |st.stack|
  {
    ReadItems(st, doc, n, margin, pad);
  }

  lemma {:induction false} ItemMirrors(st: State, item: Doc, margin: string, pad: string)
    requires st.Valid() && st.cells[st.Top()].ListCell?
    requires Printable(item) && (item.Atom? || (item.Dict? && item.fields != [])) && IsMargin(margin, pad)
    ensures Mirrors(st, Print(item, "", margin, pad), Heights(item, |st.stack|))
    decreases item, 1
  {
    if item.Atom? {
      StepAtomItem(st, margin, item);
      MirrorsOne(st, Line(margin, "", item.text + Comma(item)), |st.stack|);
    } else {
      StepBrace(st, margin);
      FieldsBracketed(st, Line(margin, "", "{"), item, margin, pad);
    }
  }

  lemma RootMirrors(doc: Doc, pad: string)
    requires doc.Dict? && doc.fields != [] && Printable(doc) && AllBlank(pad)
    ensures Mirrors(START, Print(doc, "", "", pad), [1] + FieldHeights(doc, |doc.fields|, 1) + [1])
  {
    var between := PrintFields(doc, |doc.fields|, "" + pad, pad);
    StepBrace(START, "");
    FieldsMirror(START, doc, "" + pad, pad);
    ReadFields(START, doc, |doc.fields|, "" + pad, pad);
    StepClose(Run(START, between), "", "}" + Comma(doc));
    MirrorsBracketed(START, Line("", "", "{"), between, FieldHeights(doc, |doc.fields|, 1),
                     Line("", "", "}" + Comma(doc)), 1, 1);
  }

  /** At every line of a printed object the stack holds as many containers as brackets are open; the
      outermost one is never taken off. */
  lemma StackMirrorsBrackets(doc: Doc, pad: string, i: nat)
    requires doc.Dict? && doc.fields != [] && Printable(doc) && AllBlank(pad) && i < |Print(doc, "", "", pad)|
    ensures |Heights(doc, 0)| == |Print(doc, "", "", pad)|
    ensures var open := Heights(doc, 0)[i];
            HeightAfter(START, Print(doc, "", "", pad)[..i + 1]) == if open == 0 then 1 else open
  {
    RootMirrors(doc, pad);
    StackHeightsLength(START, Print(doc, "", "", pad));
    StackHeightAt(START, Print(doc, "", "", pad), i);
    HeightsArePositive(doc, |doc.fields|, 1);
    var inner := FieldHeights(doc, |doc.fields|, 1);
    assert HeightAfter(START, Print(doc, "", "", pad)[..i + 1]) == ([1] + inner + [1])[i];
    assert 0 < i <= |inner| ==> Heights(doc, 0)[i] == inner[i - 1];
  }

  lemma {:induction false} HeightsArePositive(doc: Doc, n: nat, h: nat)
    requires doc.Dict? && n <= |doc.fields| && h >= 1
    ensures forall i :: 0 <= i < |FieldHeights(doc, n, h)| ==> FieldHeights(doc, n, h)[i] >= 1
    decreases doc, 0, n
  {
    if n != 0 {
      HeightsArePositive(doc, n - 1, h);
      HeightsAtLeast(doc.fields[n - 1].value, h);
    }
  }

  lemma {:induction false} HeightsAtLeast(doc: Doc, h: nat)
    requires h >= 1
    ensures forall i :: 0 <= i < |Heights(doc, h)| ==> Heights(doc, h)[i] >= 1
    decreases doc, 1
  {
    if doc.Dict? {
      HeightsArePositive(doc, |doc.fields|, h + 1);
    } else if doc.List? {
      ItemHeightsArePositive(doc, |doc.items|, h + 1);
    }
  }

  lemma {:induction false} ItemHeightsArePositive(doc: Doc, n: nat, h: nat)
    requires doc.List? && n <= |doc.items| && h >= 1
    ensures forall i :: 0 <= i < |ItemHeights(doc, n, h)| ==> ItemHeights(doc, n, h)[i] >= 1
    decreases doc, 0, n
  {
    if n != 0 {
      ItemHeightsArePositive(doc, n - 1, h);
      HeightsAtLeast(doc.items[n - 1], h);
    }
  }
}
