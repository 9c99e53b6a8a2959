/** What quoting means in the documentation's shell: quoted words come back as written, and the two quote
    scanners of `scripts/doc_examples.py` agree exactly where they see the same comments. */
module ShellQuoting {
  import opened Options
  import opened Shell

  // ---- quoting round trip ---------------------------------------------------------------

  function Escaped(w: string): (r: string) {
    if w == "" then "" else (if IsEscapable(w[0]) then ['\\', w[0]] else [w[0]]) + Escaped(w[1..])
  }

  function Quote(w: string): (r: string) {
    "\"" + Escaped(w) + "\""
  }

  function QuotedLine(ws: seq<string>): (r: string) {
    if ws == [] then "" else if |ws| == 1 then Quote(ws[0]) else Quote(ws[0]) + " " + QuotedLine(ws[1..])
  }

  function AsWords(ws: seq<string>): (r: seq<Token>) {
    seq(|ws|, i requires 0 <= i < |ws| => Word(ws[i]))
  }

  lemma {:induction false} InDoubleReads(run: Pipeline, line: string, i: nat, cur: string, w: string, rest: string,
                                         st: Store)
    requires i <= |line| && line[i..] == Escaped(w) + "\"" + rest
    ensures InDouble(run, line, i, cur, st) == Outcome(Ok((cur + w, i + |Escaped(w)| + 1)), st)
    decreases |w|
  {
    var tail := Escaped(w) + "\"" + rest;
    assert line[i] == tail[0];
    if w == "" {
      assert cur + w == cur;
    } else {
      var n := if IsEscapable(w[0]) then 2 else 1;
      if n == 2 {
        assert line[i + 1] == tail[1];
      }
      assert line[i + n..] == tail[n..] == Escaped(w[1..]) + "\"" + rest;
      InDoubleReads(run, line, i + n, cur + [w[0]], w[1..], rest, st);
      assert cur + [w[0]] + w[1..] == cur + w;
    }
  }

  lemma ScanReadsQuote(run: Pipeline, line: string, i: nat, out: seq<Token>, w: string, rest: string, st: Store)
    requires i <= |line| && line[i..] == Quote(w) + rest
    ensures i + |Quote(w)| <= |line| && line[i + |Quote(w)|..] == rest
    ensures Scan(run, line, i, "", false, out, st) == Scan(run, line, i + |Quote(w)|, w, true, out, st)
  {
    var tail := Quote(w) + rest;
    assert line[i] == tail[0];
    assert line[i + 1..] == tail[1..] == Escaped(w) + "\"" + rest;
    InDoubleReads(run, line, i + 1, "", w, rest, st);
    assert line[i + |Quote(w)|..] == tail[|Quote(w)|..];
    assert "" + w == w;
  }

  lemma ScanReadsQuoteAndSpace(run: Pipeline, line: string, i: nat, out: seq<Token>, w: string, rest: string, st: Store)
    requires i <= |line| && line[i..] == Quote(w) + " " + rest
    ensures i + |Quote(w)| + 1 <= |line| && line[i + |Quote(w)| + 1..] == rest
    ensures Scan(run, line, i, "", false, out, st)
         == Scan(run, line, i + |Quote(w)| + 1, "", false, out + [Word(w)], st)
  {
    var tail := " " + rest;
    assert line[i..] == Quote(w) + tail;
    ScanReadsQuote(run, line, i, out, w, tail, st);
    var j := i + |Quote(w)|;
    assert line[j] == tail[0];
    assert line[j + 1..] == tail[1..];
  }

  lemma ScanReadsLastQuote(run: Pipeline, line: string, i: nat, out: seq<Token>, w: string, st: Store)
    requires i <= |line| && line[i..] == Quote(w)
    ensures Scan(run, line, i, "", false, out, st) == Outcome(Ok(out + [Word(w)]), st)
  {
    assert Quote(w) == Quote(w) + "";
    ScanReadsQuote(run, line, i, out, w, "", st);
  }

  lemma AsWordsCons(out: seq<Token>, ws: seq<string>)
    requires ws != []
    ensures out + [Word(ws[0])] + AsWords(ws[1..]) == out + AsWords(ws)
  {
  }

  lemma QuotedLineSplits(ws: seq<string>)
    requires |ws| > 1
    ensures QuotedLine(ws) == Quote(ws[0]) + " " + QuotedLine(ws[1..])
  {
  }

  lemma ScanReadsNextWord(run: Pipeline, line: string, i: nat, out: seq<Token>, ws: seq<string>, st: Store)
    requires i <= |line| && |ws| > 1 && line[i..] == QuotedLine(ws)
    ensures var j := i + |Quote(ws[0])| + 1;
            j <= |line| && line[j..] == QuotedLine(ws[1..]) &&
            Scan(run, line, i, "", false, out, st) == Scan(run, line, j, "", false, out + [Word(ws[0])], st)
  {
    var rest := QuotedLine(ws[1..]);
    assert line[i..] == Quote(ws[0]) + " " + rest by {
      QuotedLineSplits(ws);
    }
    ScanReadsQuoteAndSpace(run, line, i, out, ws[0], rest, st);
  }

  lemma ScanReadsLastWord(run: Pipeline, line: string, i: nat, out: seq<Token>, ws: seq<string>, st: Store)
    requires i <= |line| && |ws| <= 1 && line[i..] == QuotedLine(ws)
    ensures Scan(run, line, i, "", false, out, st) == Outcome(Ok(out + AsWords(ws)), st)
  {
    if ws == [] {
      assert out + AsWords(ws) == out;
    } else {
      ScanReadsLastQuote(run, line, i, out, ws[0], st);
      assert out + [Word(ws[0])] == out + AsWords(ws);
    }
  }

  lemma {:induction false} ScanReadsQuotedLine(run: Pipeline, line: string, i: nat, out: seq<Token>, ws: seq<string>,
                                               st: Store)
    requires i <= |line| && line[i..] == QuotedLine(ws)
    ensures Scan(run, line, i, "", false, out, st) == Outcome(Ok(out + AsWords(ws)), st)
    decreases |ws|
  {
    if |ws| <= 1 {
      ScanReadsLastWord(run, line, i, out, ws, st);
    } else {
      var all := out + [Word(ws[0])] + AsWords(ws[1..]);
      assert Scan(run, line, i, "", false, out, st) == Outcome(Ok(all), st) by {
        ScanReadsNextWord(run, line, i, out, ws, st);
        ScanReadsQuotedLine(run, line, i + |Quote(ws[0])| + 1, out + [Word(ws[0])], ws[1..], st);
      }
      AsWordsCons(out, ws);
    }
  }

  /** Double-quoting words and joining them by spaces is undone by the tokenizer, whatever characters
      the words hold; nothing is expanded and nothing is run. */
  lemma QuotedWordsComeBack(run: Pipeline, ws: seq<string>, st: Store)
    ensures Scan(run, QuotedLine(ws), 0, "", false, [], st) == Outcome(Ok(AsWords(ws)), st)
  {
    var line := QuotedLine(ws);
    assert line[0..] == line;
    ScanReadsQuotedLine(run, line, 0, [], ws, st);
    assert [] + AsWords(ws) == AsWords(ws);
  }

  // ---- _open_quote -------------------------------------------------------------------------

  /** Where `_open_quote` takes a `#` for a comment. */
  predicate AfterBlank(s: string, i: nat)
    requires i < |s|
  {
    i == 0 || s[i - 1] == ' ' || s[i - 1] == '\t'
  }

  /** The quote left open at the end of `s`, read on from `i` inside `quote`. */
  function OpenFrom(s: string, i: nat, quote: Option<char>): (r: Option<char>)
    decreases |s| - i
  {
    if i >= |s| then quote
    else
      var c := s[i];
      match quote
      case Some(q) =>
        if q == '"' && c == '\\' then OpenFrom(s, i + 2, quote)
        else if c == q then OpenFrom(s, i + 1, None)
        else OpenFrom(s, i + 1, quote)
      case None =>
        if c == '\\' then OpenFrom(s, i + 2, None)
        else if c == '\'' || c == '"' then OpenFrom(s, i + 1, Some(c))
        else if c == '#' && AfterBlank(s, i) then None
        else OpenFrom(s, i + 1, None)
  }

  function OpenQuote(s: string): (r: Option<char>) {
    OpenFrom(s, 0, None)
  }

  method FindOpenQuote(s: string) returns (quote: Option<char>)
    ensures quote == OpenQuote(s)
  {
    quote := None;
    var i := 0;
    while i < |s|
      invariant quote.Some? ==> quote.value == '\'' || quote.value == '"'
      invariant OpenFrom(s, i, quote) == OpenQuote(s)
    {
      var c := s[i];
      if quote == Some('\'') {
        if c == '\'' {
          quote := None;
        }
      } else if quote == Some('"') {
        if c == '\\' {
          i := i + 1;
        } else if c == '"' {
          quote := None;
        }
      } else if c == '\\' {
        i := i + 1;
      } else if c == '\'' || c == '"' {
        quote := Some(c);
      } else if c == '#' && (i == 0 || s[i - 1] == ' ' || s[i - 1] == '\t') {
        return None;
      }
      i := i + 1;
    }
  }

  // ---- the two scanners agree ------------------------------------------------------------------

  /** Whether a word is open after the unquoted character `c`. */
  predicate OpensWord(c: char) {
    !IsSpace(c) && !IsOperator(c)
  }

  /** Nothing is expanded in what the tokenizer reads from `i` on, inside `quote` or with a word open. */
  predicate Unexpanded(s: string, i: nat, quote: Option<char>, have: bool)
    decreases |s| - i
  {
    i >= |s| ||
    (var c := s[i];
     match quote
     case Some(q) =>
       if q == '"' && c == '\\' then Unexpanded(s, i + 2, quote, true)
       else if c == q then Unexpanded(s, i + 1, None, true)
       else !(q == '"' && c == '$') && Unexpanded(s, i + 1, quote, true)
     case None =>
       if c == '\\' then Unexpanded(s, i + 2, None, true)
       else if c == '\'' || c == '"' then Unexpanded(s, i + 1, Some(c), true)
       else if c == '#' && !have then true
       else c != '$' && Unexpanded(s, i + 1, None, OpensWord(c)))
  }

  /** The first `#` that one scanner takes for a comment and the other does not: to the tokenizer it is
      one where no word is open. */
  function Mismatch(s: string, i: nat, quote: Option<char>, have: bool): (r: Option<nat>)
    ensures r.Some? ==> i <= r.value < |s| && s[r.value] == '#'
    decreases |s| - i
  {
    if i >= |s| then None
    else
      var c := s[i];
      match quote
      case Some(q) =>
        if q == '"' && c == '\\' then Mismatch(s, i + 2, quote, true)
        else Mismatch(s, i + 1, if c == q then None else quote, true)
      case None =>
        if c == '\\' then Mismatch(s, i + 2, None, true)
        else if c == '\'' || c == '"' then Mismatch(s, i + 1, Some(c), true)
        else if c == '#' && AfterBlank(s, i) == have then Some(i)
        else if c == '#' && !have then None
        else Mismatch(s, i + 1, None, OpensWord(c))
  }

  /** The text ends on a backslash outside quotes and comments. */
  predicate EndsEscaping(s: string, i: nat, quote: Option<char>, have: bool)
    decreases |s| - i
  {
    i < |s| &&
    var c := s[i];
    match quote
    case Some(q) =>
      if q == '"' && c == '\\' then EndsEscaping(s, i + 2, quote, true)
      else EndsEscaping(s, i + 1, if c == q then None else quote, true)
    case None =>
      if c == '\\' then i + 1 == |s| || EndsEscaping(s, i + 2, None, true)
      else if c == '\'' || c == '"' then EndsEscaping(s, i + 1, Some(c), true)
      else if c == '#' && !have then false
      else EndsEscaping(s, i + 1, None, OpensWord(c))
  }

  lemma {:induction false} SingleQuoteIsSkipped(s: string, i: nat, j: nat)
    requires i <= j <= |s| && j == Find(s, '\'', i)
    ensures OpenFrom(s, i, Some('\'')) == if j == |s| then Some('\'') else OpenFrom(s, j + 1, None)
    ensures Unexpanded(s, i, Some('\''), true) == (j == |s| || Unexpanded(s, j + 1, None, true))
    ensures Mismatch(s, i, Some('\''), true) == if j == |s| then None else Mismatch(s, j + 1, None, true)
    ensures EndsEscaping(s, i, Some('\''), true) == (j < |s| && EndsEscaping(s, j + 1, None, true))
    decreases |s| - i
  {
    if i < j {
      SingleQuoteIsSkipped(s, i + 1, j);
    }
  }

  /** Inside double quotes both scanners stop at the same place. */
  lemma {:induction false} DoubleQuoteIsSkipped(run: Pipeline, s: string, i: nat, cur: string, st: Store)
    requires i <= |s| && Unexpanded(s, i, Some('"'), true)
    ensures var o := InDouble(run, s, i, cur, st);
            o.store == st &&
            match o.result
            case Ok((_, j)) => SameFrom(s, i, Some('"'), j)
            case Err(_) => OpenFrom(s, i, Some('"')) == Some('"') && Mismatch(s, i, Some('"'), true).None?
    decreases |s| - i
  {
    if i < |s| && s[i] != '"' {
      if s[i] == '\\' && i + 1 < |s| {
        if !IsEscapable(s[i + 1]) {
          DoubleQuoteIsSkipped(run, s, i + 2, cur + ['\\'] + [s[i + 1]], st);
        } else {
          DoubleQuoteIsSkipped(run, s, i + 2, cur + [s[i + 1]], st);
        }
      } else if s[i] != '\\' {
        DoubleQuoteIsSkipped(run, s, i + 1, cur + [s[i]], st);
      }
    }
  }

  /** Reading from `i` inside `quote` comes to reading from `j` behind it. */
  predicate SameFrom(s: string, i: nat, quote: Option<char>, j: nat) {
    OpenFrom(s, i, quote) == OpenFrom(s, j, None) && Unexpanded(s, j, None, true) &&
    Mismatch(s, i, quote, true) == Mismatch(s, j, None, true) &&
    EndsEscaping(s, i, quote, true) == EndsEscaping(s, j, None, true)
  }

  /** What the rest of the two runs says of each other: without a mismatch they agree, and a single quote
      right behind one tells them apart. */
  predicate Compared(s: string, i: nat, have: bool, ok: bool) {
    var m := Mismatch(s, i, None, have);
    (m.None? ==> (ok <==> OpenFrom(s, i, None).None? && !EndsEscaping(s, i, None, have))) &&
    (m.Some? && |s| == m.value + 2 && s[|s| - 1] == '\'' ==> (ok <==> OpenFrom(s, i, None).Some?))
  }

  lemma {:induction false} ScannersCompared(run: Pipeline, s: string, i: nat, cur: string, have: bool,
                                            out: seq<Token>, st: Store)
    requires i <= |s| && Unexpanded(s, i, None, have)
    ensures var o := Scan(run, s, i, cur, have, out, st);
            o.store == st && Compared(s, i, have, o.result.Ok?)
    decreases |s| - i, 1
  {
    if i < |s| {
      var c := s[i];
      if c == '#' {
        ComparedAtHash(run, s, i, cur, have, out, st);
      } else if IsOperator(c) {
        ComparedAtOperator(run, s, i, cur, have, out, st);
      } else if c == '\'' {
        ComparedAtSingle(run, s, i, cur, have, out, st);
      } else if c == '"' {
        ComparedAtDouble(run, s, i, cur, have, out, st);
      } else if c == '\\' {
        ComparedAtBackslash(run, s, i, cur, have, out, st);
      } else {
        ComparedAtPlain(run, s, i, cur, have, out, st);
      }
    }
  }

  lemma {:induction false} ComparedAtOperator(run: Pipeline, s: string, i: nat, cur: string, have: bool,
                                              out: seq<Token>, st: Store)
    requires i < |s| && IsOperator(s[i]) && Unexpanded(s, i, None, have)
    ensures var o := Scan(run, s, i, cur, have, out, st);
            o.store == st && Compared(s, i, have, o.result.Ok?)
    decreases |s| - i, 0
  {
    var n := OperatorLength(s, i);
    OperatorIsSkipped(s, i, n, have);
    ScannersCompared(run, s, i + n, "", false, Flushed(out, cur, have) + [Op(s[i..i + n])], st);
  }

  lemma {:induction false} ComparedAtSingle(run: Pipeline, s: string, i: nat, cur: string, have: bool,
                                            out: seq<Token>, st: Store)
    requires i < |s| && s[i] == '\'' && Unexpanded(s, i, None, have)
    ensures var o := Scan(run, s, i, cur, have, out, st);
            o.store == st && Compared(s, i, have, o.result.Ok?)
    decreases |s| - i, 0
  {
    var j := Find(s, '\'', i + 1);
    SingleQuoteIsSkipped(s, i + 1, j);
    if j < |s| {
      ScannersCompared(run, s, j + 1, cur + s[i + 1..j], true, out, st);
    }
  }

  lemma {:induction false} ComparedAtDouble(run: Pipeline, s: string, i: nat, cur: string, have: bool,
                                            out: seq<Token>, st: Store)
    requires i < |s| && s[i] == '"' && Unexpanded(s, i, None, have)
    ensures var o := Scan(run, s, i, cur, have, out, st);
            o.store == st && Compared(s, i, have, o.result.Ok?)
    decreases |s| - i, 0
  {
    DoubleQuoteIsSkipped(run, s, i + 1, cur, st);
    var o := InDouble(run, s, i + 1, cur, st);
    if o.result.Ok? {
      ScannersCompared(run, s, o.result.value.1, o.result.value.0, true, out, st);
    }
  }

  lemma {:induction false} ComparedAtBackslash(run: Pipeline, s: string, i: nat, cur: string, have: bool,
                                               out: seq<Token>, st: Store)
    requires i < |s| && s[i] == '\\' && Unexpanded(s, i, None, have)
    ensures var o := Scan(run, s, i, cur, have, out, st);
            o.store == st && Compared(s, i, have, o.result.Ok?)
    decreases |s| - i, 0
  {
    if i + 1 < |s| {
      ScannersCompared(run, s, i + 2, cur + [s[i + 1]], true, out, st);
    }
  }

  lemma {:induction false} ComparedAtPlain(run: Pipeline, s: string, i: nat, cur: string, have: bool, out: seq<Token>,
                                           st: Store)
    requires i < |s| && s[i] !in {'#', '\'', '"', '\\'} && !IsOperator(s[i]) && Unexpanded(s, i, None, have)
    ensures var o := Scan(run, s, i, cur, have, out, st);
            o.store == st && Compared(s, i, have, o.result.Ok?)
    decreases |s| - i, 0
  {
    if IsSpace(s[i]) {
      ScannersCompared(run, s, i + 1, "", false, Flushed(out, cur, have), st);
    } else {
      ScannersCompared(run, s, i + 1, cur + [s[i]], true, out, st);
    }
  }

  lemma {:induction false} ComparedAtHash(run: Pipeline, s: string, i: nat, cur: string, have: bool, out: seq<Token>,
                                          st: Store)
    requires i < |s| && s[i] == '#' && Unexpanded(s, i, None, have)
    ensures var o := Scan(run, s, i, cur, have, out, st);
            o.store == st && Compared(s, i, have, o.result.Ok?)
    decreases |s| - i, 0
  {
    if have && !AfterBlank(s, i) {
      ScannersCompared(run, s, i + 1, cur + ['#'], true, out, st);
    } else if have && |s| == i + 2 && s[i + 1] == '\'' {
      assert Find(s, '\'', i + 2) == |s|;
      assert Scan(run, s, i, cur, have, out, st) == Scan(run, s, i + 1, cur + ['#'], true, out, st);
    } else if !have && |s| == i + 2 && s[i + 1] == '\'' && !AfterBlank(s, i) {
      assert OpenFrom(s, i, None) == OpenFrom(s, i + 1, None) == OpenFrom(s, i + 2, Some('\''));
    } else if have {
      ScannersCompared(run, s, i + 1, cur + ['#'], true, out, st);
    }
  }

  lemma OperatorIsSkipped(s: string, i: nat, n: nat, have: bool)
    requires i < |s| && IsOperator(s[i]) && n == OperatorLength(s, i) && Unexpanded(s, i, None, have)
    ensures OpenFrom(s, i, None) == OpenFrom(s, i + n, None) && Unexpanded(s, i + n, None, false)
    ensures Mismatch(s, i, None, have) == Mismatch(s, i + n, None, false)
    ensures EndsEscaping(s, i, None, have) == EndsEscaping(s, i + n, None, false)
  {
    if n == 2 {
      assert s[i..i + 2][1] == s[i + 1];
    }
  }

  /** The tokenizer reaches the end exactly when `_open_quote` finds no quote open and the line does not
      end escaping. */
  ghost predicate ReadAlike(run: Pipeline, s: string, st: Store) {
    Scan(run, s, 0, "", false, [], st).result.Ok? <==> OpenQuote(s).None? && !EndsEscaping(s, 0, None, false)
  }

  /** Nothing is expanded, and both scanners see the same comments. */
  predicate Calm(s: string) {
    Unexpanded(s, 0, None, false) && Mismatch(s, 0, None, false).None?
  }

  /** Such a line is read alike, comments and all. */
  lemma ScannersAgree(run: Pipeline, s: string, st: Store)
    requires Calm(s)
    ensures ReadAlike(run, s, st)
  {
    ScannersCompared(run, s, 0, "", false, [], st);
  }

  predicate NoHashOrDollar(s: string) {
    '#' !in s && '$' !in s
  }

  /** `t` begins like `s` up to `n` and goes on without `#` and `$`. */
  ghost predicate GoesOn(s: string, n: nat, t: string) {
    n <= |s| && n <= |t| && (forall k :: 0 <= k < n ==> s[k] == t[k]) &&
    forall k :: n <= k < |t| ==> t[k] != '#' && t[k] != '$'
  }

  /** A line that goes on without `#` and `$` keeps the mismatch it began with, and gets no new one. */
  lemma {:induction false} MismatchStays(s: string, n: nat, t: string, i: nat, quote: Option<char>, have: bool)
    requires GoesOn(s, n, t) && (i < n ==> Unexpanded(s, i, quote, have))
    requires quote.Some? ==> quote.value == '\'' || quote.value == '"'
    ensures Unexpanded(t, i, quote, have)
    ensures Mismatch(t, i, quote, have) ==
            if i < n && Mismatch(s, i, quote, have).Some? && Mismatch(s, i, quote, have).value < n
            then Mismatch(s, i, quote, have) else None
    decreases |t| - i
  {
    if i < |t| {
      var c := t[i];
      if quote.Some? {
        if quote.value == '"' && c == '\\' {
          MismatchStays(s, n, t, i + 2, quote, true);
        } else {
          MismatchStays(s, n, t, i + 1, if c == quote.value then None else quote, true);
        }
      } else if c == '\\' {
        MismatchStays(s, n, t, i + 2, None, true);
      } else if c == '\'' || c == '"' {
        MismatchStays(s, n, t, i + 1, Some(c), true);
      } else if c != '#' || have {
        MismatchStays(s, n, t, i + 1, None, OpensWord(c));
      }
    }
  }

  lemma PrefixGoesOn(s: string, n: nat, rest: string)
    requires n <= |s| && NoHashOrDollar(rest)
    ensures GoesOn(s, n, s[..n] + rest)
  {
    var t := s[..n] + rest;
    forall k | n <= k < |t| ensures t[k] != '#' && t[k] != '$' {
      assert t[k] == rest[k - n];
    }
  }

  /** Seeing the same comments is exactly what it takes: a line without anything to expand does if and only
      if each of its beginnings is read alike, however it goes on without a further `#`. */
  lemma ReadAlikeExactly(run: Pipeline, s: string, st: Store)
    requires Unexpanded(s, 0, None, false)
    ensures Mismatch(s, 0, None, false).None? <==>
            forall n: nat, rest: string :: n <= |s| && NoHashOrDollar(rest) ==> ReadAlike(run, s[..n] + rest, st)
  {
    if Mismatch(s, 0, None, false).None? {
      forall n: nat, rest: string | n <= |s| && NoHashOrDollar(rest) ensures ReadAlike(run, s[..n] + rest, st) {
        PrefixGoesOn(s, n, rest);
        MismatchStays(s, n, s[..n] + rest, 0, None, false);
        ScannersAgree(run, s[..n] + rest, st);
      }
    } else {
      var n := Mismatch(s, 0, None, false).value + 1;
      MismatchTellsApart(run, s, n, st);
      assert NoHashOrDollar("'");
    }
  }

  lemma MismatchTellsApart(run: Pipeline, s: string, n: nat, st: Store)
    requires Unexpanded(s, 0, None, false) && n > 0 && Mismatch(s, 0, None, false) == Some(n - 1)
    ensures !ReadAlike(run, s[..n] + "'", st)
  {
    var t := s[..n] + "'";
    PrefixGoesOn(s, n, "'");
    MismatchStays(s, n, t, 0, None, false);
    ScannersCompared(run, t, 0, "", false, [], st);
    if EndsEscaping(t, 0, None, false) {
      EscapingNeedsBackslash(t, 0, None, false);
    }
  }

  /** A line they read apart: after an operator the tokenizer sees a comment and `_open_quote`, which asks
      for a blank before it, does not. */
  lemma CommentsAreReadDifferently(run: Pipeline, st: Store)
    ensures Scan(run, ";#'", 0, "", false, [], st).result == Ok([Op(";")])
    ensures OpenQuote(";#'") == Some('\'')
  {
    var line := ";#'";
    assert line[0..2] == ";#";
    assert OperatorLength(line, 0) == 1;
    assert line[0..1] == ";";
    assert Flushed([], "", false) + [Op(";")] == [Op(";")];
    assert Scan(run, line, 0, "", false, [], st) == Scan(run, line, 1, "", false, [Op(";")], st);
    assert OpenFrom(line, 0, None) == OpenFrom(line, 1, None) == OpenFrom(line, 2, None)
           == OpenFrom(line, 3, Some('\''));
  }

  lemma {:induction false} EscapingNeedsBackslash(s: string, i: nat, quote: Option<char>, have: bool)
    requires EndsEscaping(s, i, quote, have)
    ensures s != "" && s[|s| - 1] == '\\'
    decreases |s| - i
  {
    var c := s[i];
    if quote.Some? {
      if quote.value == '"' && c == '\\' {
        EscapingNeedsBackslash(s, i + 2, quote, true);
      } else {
        EscapingNeedsBackslash(s, i + 1, if c == quote.value then None else quote, true);
      }
    } else if c == '\\' {
      if i + 1 != |s| {
        EscapingNeedsBackslash(s, i + 2, None, true);
      }
    } else if c == '\'' || c == '"' {
      EscapingNeedsBackslash(s, i + 1, Some(c), true);
    } else {
      EscapingNeedsBackslash(s, i + 1, None, OpensWord(c));
    }
  }

  // ---- logical_lines -----------------------------------------------------------------------------

  predicate EndsInBackslash(s: string) {
    s != "" && s[|s| - 1] == '\\'
  }

  function Buffered(buf: string, raw: string): (r: string) {
    if buf == "" then raw else buf + "\n" + raw
  }

  /** Join continuations and quoted newlines: the lines yielded while reading, and what is left over. */
  method LogicalLines(raws: seq<string>) returns (lines: seq<string>, rest: string)
    ensures forall i :: 0 <= i < |lines| ==> OpenQuote(lines[i]).None? && !EndsInBackslash(lines[i])
    ensures (lines, rest) == Logical(raws)
  {
    lines, rest := [], "";
    for i := 0 to |raws|
      invariant forall j :: 0 <= j < |lines| ==> OpenQuote(lines[j]).None? && !EndsInBackslash(lines[j])
      invariant (lines, rest) == Logical(raws[..i])
    {
      assert raws[..i + 1][..i] == raws[..i];
      var buf := Buffered(rest, raws[i]);
      if EndsInBackslash(buf) {
        var before := FindOpenQuote(buf[..|buf| - 1]);
        if before.None? {
          rest := buf[..|buf| - 1];
          continue;
        }
        BackslashKeepsQuote(buf);
      }
      var open := FindOpenQuote(buf);
      if open.Some? {
        rest := buf;
      } else {
        lines, rest := lines + [buf], "";
      }
    }
    assert raws[..|raws|] == raws;
  }

  function Logical(raws: seq<string>): (r: (seq<string>, string))
    decreases |raws|
  {
    if raws == [] then ([], "")
    else
      var (lines, rest) := Logical(raws[..|raws| - 1]);
      var buf := Buffered(rest, raws[|raws| - 1]);
      if EndsInBackslash(buf) && OpenQuote(buf[..|buf| - 1]).None? then (lines, buf[..|buf| - 1])
      else if OpenQuote(buf).Some? then (lines, buf)
      else (lines + [buf], "")
  }

  /** A final backslash never closes a quote. */
  lemma BackslashKeepsQuote(s: string)
    requires EndsInBackslash(s) && OpenQuote(s[..|s| - 1]).Some?
    ensures OpenQuote(s).Some?
  {
    BackslashKeepsQuoteFrom(s, 0, None);
  }

  lemma {:induction false} BackslashKeepsQuoteFrom(s: string, i: nat, quote: Option<char>)
    requires EndsInBackslash(s) && i <= |s| && (quote.Some? ==> quote.value == '\'' || quote.value == '"')
    requires OpenFrom(s[..|s| - 1], i, quote).Some?
    ensures OpenFrom(s, i, quote).Some?
    decreases |s| - i
  {
    var t := s[..|s| - 1];
    if i < |t| {
      var c := s[i];
      assert t[i] == c && (i > 0 ==> t[i - 1] == s[i - 1]);
      if i + 2 <= |s| && c == '\\' && quote != Some('\'') {
        BackslashKeepsQuoteFrom(s, i + 2, quote);
      } else if quote.Some? {
        BackslashKeepsQuoteFrom(s, i + 1, if c == quote.value then None else quote);
      } else {
        BackslashKeepsQuoteFrom(s, i + 1, if c == '\'' || c == '"' then Some(c) else None);
      }
    }
  }

  /** So every logical line but what is left over at the end of a block can be tokenized. */
  lemma {:induction false} LogicalLinesTokenize(run: Pipeline, raws: seq<string>, k: nat, st: Store)
    requires k < |Logical(raws).0| && Calm(Logical(raws).0[k])
    ensures Scan(run, Logical(raws).0[k], 0, "", false, [], st).result.Ok?
    decreases |raws|
  {
    var (lines, rest) := Logical(raws[..|raws| - 1]);
    if k < |lines| {
      LogicalLinesTokenize(run, raws[..|raws| - 1], k, st);
    } else {
      var buf := Logical(raws).0[k];
      if EndsInBackslash(buf) {
        BackslashKeepsQuote(buf);
      }
      if EndsEscaping(buf, 0, None, false) {
        EscapingNeedsBackslash(buf, 0, None, false);
      }
      ScannersAgree(run, buf, st);
    }
  }
}
