/** The string operations of the scripts: splitting, joining, stripping and first occurrences. */
module Text {
  function ToSet(items: seq<string>): (r: set<string>) {
    set x | x in items
  }

  /** As many different elements as elements. */
  predicate NoRepeats(items: seq<string>) {
    |ToSet(items)| == |items|
  }

  lemma ToSetAppend(items: seq<string>, key: string)
    ensures ToSet(items + [key]) == ToSet(items) + {key}
  {
  }

  lemma AppendNew(order: seq<string>, key: string)
    requires NoRepeats(order) && key !in order
    ensures NoRepeats(order + [key]) && ToSet(order + [key]) == ToSet(order) + {key}
  {
    ToSetAppend(order, key);
  }

  /** Where `c` first occurs in `s`, or `|s|` when it does not. */
  function IndexOf(s: string, c: char): (i: nat)
    ensures i <= |s|
    ensures c !in s[..i]
    ensures i < |s| ==> s[i] == c
  {
    if s == "" then 0 else if s[0] == c then 0 else
      var i := 1 + IndexOf(s[1..], c);
      assert s[..i] == [s[0]] + s[1..][..i - 1];
      i
  }

  /** `s.split(sep)` : always at least one part, empty parts kept. */
  function Split(s: string, sep: char): (parts: seq<string>)
    ensures |parts| >= 1
    ensures forall part :: part in parts ==> sep !in part
  {
    if s == "" then [""] else
      var rest := Split(s[1..], sep);
      if s[0] == sep then [""] + rest else [[s[0]] + rest[0]] + rest[1..]
  }

  function Join(parts: seq<string>, sep: char): (s: string) {
    if parts == [] then "" else if |parts| == 1 then parts[0] else parts[0] + [sep] + Join(parts[1..], sep)
  }

  lemma {:induction false} SplitSingle(s: string, sep: char)
    requires sep !in s
    ensures Split(s, sep) == [s]
  {
    if s != "" {
      assert sep !in s[1..];
      SplitSingle(s[1..], sep);
      assert [s[0]] + s[1..] == s;
    }
  }

  lemma {:induction false} SplitHead(head: string, tail: string, sep: char)
    requires sep !in head
    ensures Split(head + [sep] + tail, sep) == [head] + Split(tail, sep)
  {
    var s := head + [sep] + tail;
    if head == "" {
      assert s[1..] == tail;
    } else {
      assert sep !in head[1..];
      assert s[1..] == head[1..] + [sep] + tail;
      SplitHead(head[1..], tail, sep);
      assert [head[0]] + head[1..] == head;
    }
  }

  /** Where `c` last occurs in `s`, plus one; 0 when it does not. */
  function AfterLast(s: string, c: char): (i: nat)
    ensures i <= |s| && c !in s[i..] && (i > 0 ==> s[i - 1] == c)
  {
    if s == "" then 0
    else if s[|s| - 1] == c then |s|
    else
      var i := AfterLast(s[..|s| - 1], c);
      assert s[i..] == s[..|s| - 1][i..] + [s[|s| - 1]];
      i
  }

  /** What stands before a `c` does not matter to what stands after the last one. */
  lemma {:induction false} AfterLastOver(before: string, c: char, s: string)
    ensures AfterLast(before + [c] + s, c) == |before| + 1 + AfterLast(s, c)
    decreases |s|
  {
    if s != "" && s[|s| - 1] != c {
      var n := |s| - 1;
      assert (before + [c] + s)[..|before| + 1 + n] == before + [c] + s[..n];
      AfterLastOver(before, c, s[..n]);
    }
  }

  lemma {:induction false} AfterLastNone(s: string, c: char)
    requires c !in s
    ensures AfterLast(s, c) == 0
    decreases |s|
  {
    if s != "" {
      AfterLastNone(s[..|s| - 1], c);
    }
  }

  /** Splitting undoes joining, for parts that do not hold the separator. */
  lemma {:induction false} SplitJoin(parts: seq<string>, sep: char)
    requires parts != []
    requires forall part :: part in parts ==> sep !in part
    ensures Split(Join(parts, sep), sep) == parts
  {
    if |parts| == 1 {
      SplitSingle(parts[0], sep);
    } else {
      SplitHead(parts[0], Join(parts[1..], sep), sep);
      SplitJoin(parts[1..], sep);
    }
  }

  /** `s.lstrip(c)` */
  function StripLeft(s: string, c: char): (r: string) {
    if s != "" && s[0] == c then StripLeft(s[1..], c) else s
  }

  predicate IsBlank(c: char) {
    c == ' ' || c == '\t' || c == '\n' || c == '\r' || c == '\U{B}' || c == '\U{C}'
  }

  predicate AllBlank(s: string) {
    forall i :: 0 <= i < |s| ==> IsBlank(s[i])
  }

  function SkipBlanks(s: string): (r: string) {
    if s != "" && IsBlank(s[0]) then SkipBlanks(s[1..]) else s
  }

  function TrimRight(s: string): (r: string) {
    if s != "" && IsBlank(s[|s| - 1]) then TrimRight(s[..|s| - 1]) else s
  }

  /** `s.strip()` */
  function Strip(s: string): (r: string) {
    TrimRight(SkipBlanks(s))
  }

  /** Neither end is blank. */
  predicate IsTrimmed(s: string) {
    s != "" ==> !IsBlank(s[0]) && !IsBlank(s[|s| - 1])
  }

  lemma {:induction false} SkipBlanksOver(blanks: string, s: string)
    requires AllBlank(blanks)
    ensures SkipBlanks(blanks + s) == SkipBlanks(s)
  {
    if blanks == "" {
      assert blanks + s == s;
    } else {
      assert (blanks + s)[1..] == blanks[1..] + s;
      SkipBlanksOver(blanks[1..], s);
    }
  }

  lemma {:induction false} TrimRightOver(s: string, blanks: string)
    requires AllBlank(blanks)
    ensures TrimRight(s + blanks) == TrimRight(s)
  {
    if blanks == "" {
      assert s + blanks == s;
    } else {
      var n := |blanks| - 1;
      assert (s + blanks)[..|s| + n] == s + blanks[..n];
      TrimRightOver(s, blanks[..n]);
    }
  }

  lemma StripOver(before: string, s: string, after: string)
    requires AllBlank(before) && AllBlank(after) && IsTrimmed(s)
    ensures Strip(before + s + after) == s
  {
    assert before + s + after == before + (s + after);
    SkipBlanksOver(before, s + after);
    if s == "" {
      SkipBlanksOver(after, "");
      assert s + after == after == after + "";
    } else {
      TrimRightOver(s, after);
    }
  }

  /** `s` stands in `line` at `j`. */
  predicate At(line: string, j: nat, s: string) {
    j + |s| <= |line| && forall k :: 0 <= k < |s| ==> line[j + k] == s[k]
  }

  lemma AtIsSlice(line: string, j: nat, s: string)
    requires At(line, j, s)
    ensures line[j..j + |s|] == s
  {
  }

  lemma AtConcat(line: string, j: nat, a: string, b: string)
    ensures At(line, j, a + b) <==> At(line, j, a) && At(line, j + |a|, b)
  {
    var s := a + b;
    if At(line, j, a) && At(line, j + |a|, b) {
      forall k | 0 <= k < |s| ensures line[j + k] == s[k] {
        if k >= |a| {
          assert line[j + |a| + (k - |a|)] == b[k - |a|];
        }
      }
    }
    if At(line, j, s) {
      forall k | 0 <= k < |b| ensures line[j + |a| + k] == b[k] {
        assert line[j + (|a| + k)] == s[|a| + k];
      }
      forall k | 0 <= k < |a| ensures line[j + k] == a[k] {
        assert line[j + k] == s[k];
      }
    }
  }

  lemma AtChar(line: string, j: nat, c: char)
    ensures At(line, j, [c]) <==> j < |line| && line[j] == c
  {
    assert [c][0] == c;
  }

  /** `open`, `inside`, `close` one after the other. */
  lemma AtEnclosed(line: string, j: nat, open: char, inside: string, close: char)
    ensures At(line, j, [open] + inside + [close]) <==>
            At(line, j, [open]) && At(line, j + 1, inside) && At(line, j + 1 + |inside|, [close])
  {
    AtConcat(line, j, [open] + inside, [close]);
    AtConcat(line, j, [open], inside);
  }
}
