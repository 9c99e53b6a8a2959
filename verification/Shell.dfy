/** The small shell that runs the documentation's examples (`scripts/doc_examples.py`): the tokenizer,
    variable and command substitution, and the line runner. What a pipeline prints is left open: it may
    depend on every pipeline run before it. */
module Shell {
  import opened Options

  datatype Token = Word(text: string) | Op(text: string)

  /** Why a line could not be run: it ended inside a quote, a substitution or an escape; it uses a
      variable nothing set; or a command failed. */
  datatype Failure = RanOut | Unset(name: string) | Failed

  datatype Result<+T> = Ok(value: T) | Err(failure: Failure)

  /** What running a line changes: the variables, and the pipelines that were run. */
  datatype Store = Store(env: map<string, string>, ran: seq<seq<Token>>)

  datatype Outcome<+T> = Outcome(result: Result<T>, store: Store)

  type Pipeline = (seq<seq<Token>>, seq<Token>) -> Result<string>

  // ---- characters ---------------------------------------------------------------------

  predicate IsSpace(c: char) {
    c == ' ' || c == '\t' || c == '\n'
  }

  predicate IsOperator(c: char) {
    c == '|' || c == ';' || c == '&' || c == '>'
  }

  predicate IsLetter(c: char) {
    'a' <= c <= 'z' || 'A' <= c <= 'Z' || c == '_'
  }

  predicate IsWordChar(c: char) {
    IsLetter(c) || '0' <= c <= '9'
  }

  /** The characters a backslash escapes inside double quotes (POSIX.1-2017 Shell Command Language,
      section 2.2.3). */
  predicate IsEscapable(c: char) {
    c == '"' || c == '\\' || c == '$' || c == '`'
  }

  /** Where `c` next occurs at or after `i`, or `|s|`. */
  function Find(s: string, c: char, i: nat): (j: nat)
    requires i <= |s|
    ensures i <= j <= |s| && (j < |s| ==> s[j] == c)
    ensures forall k :: i <= k < j ==> s[k] != c
    decreases |s| - i
  {
    if i == |s| || s[i] == c then i else Find(s, c, i + 1)
  }

  /** The end of the run of word characters at `i`. */
  function WordEnd(s: string, i: nat): (j: nat)
    requires i <= |s|
    ensures i <= j <= |s|
    decreases |s| - i
  {
    if i < |s| && IsWordChar(s[i]) then WordEnd(s, i + 1) else i
  }

  function TrimNewlines(s: string): (r: string) {
    if s != "" && s[|s| - 1] == '\n' then TrimNewlines(s[..|s| - 1]) else s
  }

  function Flushed(out: seq<Token>, cur: string, have: bool): (r: seq<Token>) {
    if have then out + [Word(cur)] else out
  }

  // ---- words, expand and run_line as functions of the store -------------------------------

  /** Where the bracket opened `depth` levels up closes; `quote` is the quote we are in. Escapes count
      inside double quotes only. */
  function Matching(line: string, j: nat, depth: nat, quote: Option<char>): (r: Option<nat>)
    ensures r.Some? && depth > 0 ==> j < r.value <= |line| && line[r.value - 1] == ')'
    decreases |line| - j
  {
    if depth == 0 then Some(j)
    else if j >= |line| then None
    else
      var c := line[j];
      match quote
      case Some(q) =>
        if c == q then Matching(line, j + 1, depth, None)
        else if c == '\\' && q == '"' then Matching(line, j + 2, depth, quote)
        else Matching(line, j + 1, depth, quote)
      case None =>
        if c == '\'' || c == '"' then Matching(line, j + 1, depth, Some(c))
        else if c == '(' then Matching(line, j + 1, depth + 1, None)
        else if c == ')' then Matching(line, j + 1, depth - 1, None)
        else Matching(line, j + 1, depth, None)
  }

  /** The rest of the tokenizer's run, from position `i` with the word so far. */
  function Scan(run: Pipeline, line: string, i: nat, cur: string, have: bool, out: seq<Token>, st: Store)
    : (r: Outcome<seq<Token>>)
    requires i <= |line|
    decreases |line|, 1, |line| - i
  {
    if i == |line| then Outcome(Ok(Flushed(out, cur, have)), st)
    else
      var c := line[i];
      if IsSpace(c) then Scan(run, line, i + 1, "", false, Flushed(out, cur, have), st)
      else if c == '#' && !have then Outcome(Ok(out), st)
      else if IsOperator(c) then
        var n := OperatorLength(line, i);
        Scan(run, line, i + n, "", false, Flushed(out, cur, have) + [Op(line[i..i + n])], st)
      else if c == '\'' then
        var j := Find(line, '\'', i + 1);
        if j == |line| then Outcome(Err(RanOut), st)
        else Scan(run, line, j + 1, cur + line[i + 1..j], true, out, st)
      else if c == '"' then
        var o := InDouble(run, line, i + 1, cur, st);
        if o.result.Err? then Outcome(Err(o.result.failure), o.store)
        else Scan(run, line, o.result.value.1, o.result.value.0, true, out, o.store)
      else if c == '\\' then
        if i + 1 == |line| then Outcome(Err(RanOut), st)
        else Scan(run, line, i + 2, cur + [line[i + 1]], true, out, st)
      else if c == '$' then
        var o := Expand(run, line, i, st);
        if o.result.Err? then Outcome(Err(o.result.failure), o.store)
        else Scan(run, line, o.result.value.1, cur + o.result.value.0, true, out, o.store)
      else Scan(run, line, i + 1, cur + [c], true, out, st)
  }

  /** Operators are read two characters long where they can be. */
  function OperatorLength(line: string, i: nat): (n: nat)
    requires i < |line|
    ensures 1 <= n <= 2 && i + n <= |line|
  {
    if i + 1 < |line| && line[i..i + 2] in {"&&", "||", ">>"} then 2 else 1
  }

  /** The inside of double quotes, up to and past the closing one. */
  function InDouble(run: Pipeline, line: string, i: nat, cur: string, st: Store): (r: Outcome<(string, nat)>)
    requires i <= |line|
    ensures r.result.Ok? ==> i < r.result.value.1 <= |line|
    decreases |line|, 1, |line| - i
  {
    if i == |line| then Outcome(Err(RanOut), st)
    else if line[i] == '"' then Outcome(Ok((cur, i + 1)), st)
    else if line[i] == '\\' then
      if i + 1 == |line| then Outcome(Err(RanOut), st)
      else if IsEscapable(line[i + 1]) then InDouble(run, line, i + 2, cur + [line[i + 1]], st)
      else InDouble(run, line, i + 1, cur + ['\\'], st)
    else if line[i] == '$' then
      var o := Expand(run, line, i, st);
      if o.result.Err? then Outcome(Err(o.result.failure), o.store)
      else InDouble(run, line, o.result.value.1, cur + o.result.value.0, o.store)
    else InDouble(run, line, i + 1, cur + [line[i]], st)
  }

  /** The value of the `$` at `i`, and where it ends. */
  function Expand(run: Pipeline, line: string, i: nat, st: Store): (r: Outcome<(string, nat)>)
    requires i < |line| && line[i] == '$'
    ensures r.result.Ok? ==> i < r.result.value.1 <= |line|
    decreases |line|, 0
  {
    if i + 1 < |line| && line[i + 1] == '(' then
      var close := Matching(line, i + 2, 1, None);
      if close.None? then Outcome(Err(RanOut), st)
      else
        var o := RunLine(run, line[i + 2..close.value - 1], true, st);
        if o.result.Err? then Outcome(Err(o.result.failure), o.store)
        else Outcome(Ok((TrimNewlines(o.result.value), close.value)), o.store)
    else
      var (name, end) := Variable(line, i);
      if name == "" then Outcome(Ok(("$", i + 1)), st)
      else if name in st.env then Outcome(Ok((st.env[name], end)), st)
      else Outcome(Err(Unset(name)), st)
  }

  /** `$name` or `${name}` at `i`: the name, empty when there is none, and the position after it. */
  function Variable(line: string, i: nat): (r: (string, nat))
    requires i < |line|
    ensures i < r.1 <= |line|
  {
    if i + 1 < |line| && line[i + 1] == '{' then
      var j := WordEnd(line, i + 2);
      if j > i + 2 && j < |line| && line[j] == '}' then (line[i + 2..j], j + 1) else ("", i + 1)
    else
      var j := WordEnd(line, i + 1);
      (line[i + 1..j], if j == i + 1 then i + 1 else j)
  }

  /** Where the `=` of an assignment stands, or `|word|`. */
  function AssignmentAt(word: string): (k: nat)
    ensures k <= |word|
  {
    var k := Find(word, '=', 0);
    if k < |word| && k > 0 && IsLetter(word[0]) && forall j :: 0 <= j < k ==> IsWordChar(word[j]) then k else |word|
  }

  /** The commands of a line: its tokens cut at `&&` and `;`. */
  function Commands(words: seq<Token>): (r: seq<seq<Token>>)
    ensures |r| >= 1
  {
    if words == [] then [[]]
    else
      var before := Commands(words[..|words| - 1]);
      var w := words[|words| - 1];
      if w == Op("&&") || w == Op(";") then before + [[]]
      else before[..|before| - 1] + [before[|before| - 1] + [w]]
  }

  function RunAll(run: Pipeline, commands: seq<seq<Token>>, st: Store): (r: Outcome<string>)
    decreases |commands|
  {
    if commands == [] then Outcome(Ok(""), st)
    else
      var o := RunAll(run, commands[..|commands| - 1], st);
      var cmd := commands[|commands| - 1];
      if o.result.Err? || cmd == [] then o
      else
        var printed := run(o.store.ran, cmd);
        var after := o.store.(ran := o.store.ran + [cmd]);
        if printed.Err? then Outcome(printed, after) else Outcome(Ok(o.result.value + printed.value), after)
  }

  function RunLine(run: Pipeline, line: string, capture: bool, st: Store): (r: Outcome<string>)
    decreases |line|, 2
  {
    var o := Scan(run, line, 0, "", false, [], st);
    if o.result.Err? then Outcome(Err(o.result.failure), o.store)
    else RunWords(run, o.result.value, capture, o.store)
  }

  function RunWords(run: Pipeline, words: seq<Token>, capture: bool, st: Store): (r: Outcome<string>) {
    if words == [] then Outcome(Ok(""), st)
    else if |words| == 1 && words[0].Word? && AssignmentAt(words[0].text) < |words[0].text| then
      var k := AssignmentAt(words[0].text);
      Outcome(Ok(""), st.(env := st.env[words[0].text[..k] := words[0].text[k + 1..]]))
    else
      var o := RunAll(run, Commands(words), st);
      if o.result.Err? || capture then o else Outcome(Ok(""), o.store)
  }

  // ---- the shell as the script runs it ------------------------------------------------------

  class Interpreter {
    const run: Pipeline
    var env: map<string, string>
    var ran: seq<seq<Token>>

    constructor (run: Pipeline)
      ensures this.run == run && env == map[] && ran == []
    {
      this.run := run;
      env, ran := map[], [];
    }

    function Here(): (r: Store)
      reads this
    {
      Store(env, ran)
    }

    method Words(line: string) returns (r: Result<seq<Token>>)
      modifies this
      ensures Outcome(r, Here()) == Scan(run, line, 0, "", false, [], old(Here()))
      decreases |line|, 1, |line| + 1
    {
      var out: seq<Token>, cur, have, i := [], "", false, 0;
      while i < |line|
        invariant 0 <= i <= |line|
        invariant Scan(run, line, i, cur, have, out, Here()) == Scan(run, line, 0, "", false, [], old(Here()))
      {
        var c := line[i];
        if IsSpace(c) {
          out, cur, have := Flushed(out, cur, have), "", false;
          i := i + 1;
        } else if c == '#' && !have {
          break;
        } else if IsOperator(c) {
          var n := OperatorLength(line, i);
          out, cur, have := Flushed(out, cur, have) + [Op(line[i..i + n])], "", false;
          i := i + n;
        } else if c == '\'' {
          var j := Find(line, '\'', i + 1);
          if j == |line| {
            return Err(RanOut);
          }
          cur, have := cur + line[i + 1..j], true;
          i := j + 1;
        } else if c == '"' {
          var quoted := Quoted(line, i + 1, cur);
          if quoted.Err? {
            return Err(quoted.failure);
          }
          cur, have, i := quoted.value.0, true, quoted.value.1;
        } else if c == '\\' {
          if i + 1 == |line| {
            return Err(RanOut);
          }
          cur, have := cur + [line[i + 1]], true;
          i := i + 2;
        } else if c == '$' {
          var value := ExpandAt(line, i);
          if value.Err? {
            return Err(value.failure);
          }
          cur, have, i := cur + value.value.0, true, value.value.1;
        } else {
          cur, have := cur + [c], true;
          i := i + 1;
        }
      }
      r := Ok(Flushed(out, cur, have));
    }

    /** The inner loop of `words`, inside double quotes. */
    method Quoted(line: string, start: nat, before: string) returns (r: Result<(string, nat)>)
      requires start <= |line|
      modifies this
      ensures Outcome(r, Here()) == InDouble(run, line, start, before, old(Here()))
      decreases |line|, 1, |line| - start
    {
      var i, cur := start, before;
      while i < |line| && line[i] != '"'
        invariant start <= i <= |line|
        invariant InDouble(run, line, i, cur, Here()) == InDouble(run, line, start, before, old(Here()))
      {
        if line[i] == '\\' {
          if i + 1 == |line| {
            return Err(RanOut);
          } else if IsEscapable(line[i + 1]) {
            cur, i := cur + [line[i + 1]], i + 2;
          } else {
            cur, i := cur + ['\\'], i + 1;
          }
        } else if line[i] == '$' {
          var value := ExpandAt(line, i);
          if value.Err? {
            return Err(value.failure);
          }
          cur, i := cur + value.value.0, value.value.1;
        } else {
          cur, i := cur + [line[i]], i + 1;
        }
      }
      r := if i == |line| then Err(RanOut) else Ok((cur, i + 1));
    }

    method ExpandAt(line: string, i: nat) returns (r: Result<(string, nat)>)
      requires i < |line| && line[i] == '$'
      modifies this
      ensures Outcome(r, Here()) == Expand(run, line, i, old(Here()))
      decreases |line|, 0
    {
      if i + 1 < |line| && line[i + 1] == '(' {
        var close := CloseAt(line, i + 2);
        if close.None? {
          return Err(RanOut);
        }
        var printed := Run(line[i + 2..close.value - 1], true);
        return if printed.Err? then Err(printed.failure) else Ok((TrimNewlines(printed.value), close.value));
      }
      var (name, end) := Variable(line, i);
      if name == "" {
        return Ok(("$", i + 1));
      }
      r := if name in env then Ok((env[name], end)) else Err(Unset(name));
    }

    /** The loop of `expand` that counts brackets. */
    method CloseAt(line: string, start: nat) returns (r: Option<nat>)
      ensures r == Matching(line, start, 1, None)
    {
      var depth, j, quote: Option<char> := 1, start, None;
      while depth > 0
        invariant Matching(line, j, depth, quote) == Matching(line, start, 1, None)
        decreases |line| - j
      {
        if j >= |line| {
          return None;
        }
        var c := line[j];
        if quote.Some? {
          if c == quote.value {
            quote := None;
          } else if c == '\\' && quote.value == '"' {
            j := j + 1;
          }
        } else if c == '\'' || c == '"' {
          quote := Some(c);
        } else if c == '(' {
          depth := depth + 1;
        } else if c == ')' {
          depth := depth - 1;
        }
        j := j + 1;
      }
      r := Some(j);
    }

    method Run(line: string, capture: bool) returns (r: Result<string>)
      modifies this
      ensures Outcome(r, Here()) == RunLine(run, line, capture, old(Here()))
      decreases |line|, 2
    {
      var words := Words(line);
      if words.Err? {
        return Err(words.failure);
      }
      var ws := words.value;
      if ws == [] {
        return Ok("");
      }
      if |ws| == 1 && ws[0].Word? && AssignmentAt(ws[0].text) < |ws[0].text| {
        var k := AssignmentAt(ws[0].text);
        env := env[ws[0].text[..k] := ws[0].text[k + 1..]];
        return Ok("");
      }
      var all := RunCommands(Commands(ws));
      r := if all.Err? || capture then all else Ok("");
    }

    method RunCommands(commands: seq<seq<Token>>) returns (r: Result<string>)
      modifies this`ran
      ensures Outcome(r, Here()) == RunAll(run, commands, old(Here()))
    {
      var out := "";
      for i := 0 to |commands|
        invariant env == old(env)
        invariant Outcome(Ok(out), Here()) == RunAll(run, commands[..i], old(Here()))
      {
        assert commands[..i + 1][..i] == commands[..i];
        if commands[i] != [] {
          var printed := run(ran, commands[i]);
          ran := ran + [commands[i]];
          if printed.Err? {
            RunStopped(run, commands, i + 1, old(Here()));
            return printed;
          }
          out := out + printed.value;
        }
      }
      assert commands[..|commands|] == commands;
      r := Ok(out);
    }
  }

  /** After a failure nothing more is run. */
  lemma {:induction false} RunStopped(run: Pipeline, commands: seq<seq<Token>>, n: nat, st: Store)
    requires n <= |commands| && RunAll(run, commands[..n], st).result.Err?
    ensures RunAll(run, commands, st) == RunAll(run, commands[..n], st)
    decreases |commands|
  {
    if n == |commands| {
      assert commands[..n] == commands;
    } else {
      var before := commands[..|commands| - 1];
      assert before[..n] == commands[..n];
      RunStopped(run, before, n, st);
    }
  }
}
