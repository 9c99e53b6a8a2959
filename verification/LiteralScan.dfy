/** The object-literal scanners of `scripts/frontend_param_drift.py` (`literal_keys`) and
    `scripts/frontend_body_drift.py` (`literal_members`, the same scan without quote state). */
module LiteralScan {
  import opened Options
  import opened Text

  /** The top-level keys; no closing bracket before the end of the text; or a scan that stands still
      for ever. */
  datatype Scan = Keys(keys: seq<string>) | Unclosed | Endless

  predicate IsOpen(c: char) {
    c == '{' || c == '[' || c == '('
  }

  predicate IsClose(c: char) {
    c == '}' || c == ']' || c == ')'
  }

  predicate IsQuote(c: char) {
    c == '\'' || c == '"' || c == '`'
  }

  // ---- skipping a value -------------------------------------------------------------------

  /** Where the inner loop leaves a value: at a comma, at the bracket that closes the literal, or at
      the end of the text. */
  datatype Stop = AtComma(j: nat) | AtClose(j: nat) | AtEnd

  /** `aware` is the quote state of `literal_keys`; `literal_members` scans without it. */
  function ValueStop(text: string, i: nat, inner: nat, quote: Option<char>, aware: bool): (r: Stop)
    ensures !r.AtEnd? ==> i <= r.j < |text|
    ensures r.AtComma? ==> text[r.j] == ','
    ensures r.AtClose? ==> IsClose(text[r.j])
    decreases |text| - i
  {
    if i >= |text| then AtEnd
    else
      var c := text[i];
      if quote.Some? then
        if c == '\\' then ValueStop(text, i + 2, inner, quote, aware)
        else ValueStop(text, i + 1, inner, if c == quote.value then None else quote, aware)
      else if aware && IsQuote(c) then ValueStop(text, i + 1, inner, Some(c), aware)
      else if IsOpen(c) then ValueStop(text, i + 1, inner + 1, None, aware)
      else if IsClose(c) then
        if inner == 0 then AtClose(i) else ValueStop(text, i + 1, inner - 1, None, aware)
      else if c == ',' && inner == 0 then AtComma(i)
      else ValueStop(text, i + 1, inner, None, aware)
  }

  // ---- the outer loop ------------------------------------------------------------------------

  datatype State = State(i: nat, depth: int, key: string, keys: seq<string>)

  datatype Turn = Done(result: Scan) | More(state: State)

  /** The key read so far, if there is any text in it. */
  function WithKey(keys: seq<string>, key: string): (r: seq<string>) {
    if Strip(key) != "" then keys + [Strip(key)] else keys
  }

  /** One turn of the outer loop. At a closing bracket the inner loop steps back one character. */
  function OneTurn(text: string, s: State, aware: bool): (r: Turn)
    ensures r.More? ==> r.state.i >= s.i && s.i < |text|
  {
    if s.i >= |text| then Done(Unclosed)
    else
      var c := text[s.i];
      if IsOpen(c) then More(State(s.i + 1, s.depth + 1, if s.depth + 1 == 1 then "" else s.key, s.keys))
      else if IsClose(c) then
        if s.depth - 1 == 0 then Done(Keys(WithKey(s.keys, s.key)))
        else More(State(s.i + 1, s.depth - 1, s.key, s.keys))
      else if s.depth == 1 then
        if c == ',' then More(State(s.i + 1, 1, "", WithKey(s.keys, s.key)))
        else if c == ':' then
          match ValueStop(text, s.i + 1, 0, None, aware)
          case AtComma(j) => More(State(j, 1, "", s.keys + [Strip(s.key)]))
          case AtClose(j) => More(State(j - 1, 1, "", s.keys + [Strip(s.key)]))
          case AtEnd => Done(Unclosed)
        else More(State(s.i + 1, 1, s.key + [c], s.keys))
      else More(State(s.i + 1, s.depth, s.key, s.keys))
  }

  function ScanFrom(text: string, s: State, aware: bool): (r: Scan)
    decreases |text| - s.i
  {
    match OneTurn(text, s, aware)
    case Done(r) => r
    case More(t) => if t.i == s.i then Endless else ScanFrom(text, t, aware)
  }

  function Start(brace: nat): (r: State) {
    State(brace, 0, "", [])
  }

  function LiteralKeys(text: string, brace: nat): (r: Scan) {
    ScanFrom(text, Start(brace), true)
  }

  function LiteralMembers(text: string, brace: nat): (r: Scan) {
    ScanFrom(text, Start(brace), false)
  }

  // ---- the loops as the scripts run them -----------------------------------------------------

  method SkipValue(text: string, start: nat) returns (r: Stop)
    ensures r == ValueStop(text, start, 0, None, true)
  {
    var i, inner, quote: Option<char> := start, 0, None;
    while i < |text|
      invariant ValueStop(text, i, inner, quote, true) == ValueStop(text, start, 0, None, true)
    {
      var c := text[i];
      if quote.Some? {
        if c == '\\' {
          i := i + 2;
          continue;
        }
        if c == quote.value {
          quote := None;
        }
      } else if IsQuote(c) {
        quote := Some(c);
      } else if IsOpen(c) {
        inner := inner + 1;
      } else if IsClose(c) {
        if inner == 0 {
          return AtClose(i);
        }
        inner := inner - 1;
      } else if c == ',' && inner == 0 {
        return AtComma(i);
      }
      i := i + 1;
    }
    r := AtEnd;
  }

  method SkipValueBlindly(text: string, start: nat) returns (r: Stop)
    ensures r == ValueStop(text, start, 0, None, false)
  {
    var i, inner := start, 0;
    while i < |text|
      invariant ValueStop(text, i, inner, None, false) == ValueStop(text, start, 0, None, false)
    {
      if IsOpen(text[i]) {
        inner := inner + 1;
      } else if IsClose(text[i]) {
        if inner == 0 {
          return AtClose(i);
        }
        inner := inner - 1;
      } else if text[i] == ',' && inner == 0 {
        return AtComma(i);
      }
      i := i + 1;
    }
    r := AtEnd;
  }

  method ScanLiteral(text: string, brace: nat, aware: bool) returns (r: Scan)
    ensures r == ScanFrom(text, Start(brace), aware)
  {
    var depth, i, keys: seq<string>, key := 0, brace, [], "";
    while i < |text|
      invariant ScanFrom(text, State(i, depth, key, keys), aware) == ScanFrom(text, Start(brace), aware)
      decreases |text| - i
    {
      var c := text[i];
      if IsOpen(c) {
        depth := depth + 1;
        if depth == 1 {
          key := "";
        }
      } else if IsClose(c) {
        depth := depth - 1;
        if depth == 0 {
          return Keys(WithKey(keys, key));
        }
      } else if depth == 1 {
        if c == ',' {
          keys, key := WithKey(keys, key), "";
        } else if c == ':' {
          keys, key := keys + [Strip(key)], "";
          var stop;
          if aware {
            stop := SkipValue(text, i + 1);
          } else {
            stop := SkipValueBlindly(text, i + 1);
          }
          if stop.AtEnd? {
            return Unclosed;
          }
          var next := if stop.AtComma? then stop.j else stop.j - 1;
          if next == i {
            return Endless;
          }
          i := next;
          continue;
        } else {
          key := key + [c];
        }
      }
      i := i + 1;
    }
    r := Unclosed;
  }

  // ---- standing still -------------------------------------------------------------------------

  function Turns(text: string, s: State, aware: bool, n: nat): (r: Turn)
    decreases n
  {
    if n == 0 then More(s)
    else
      match OneTurn(text, s, aware)
      case Done(r) => Done(r)
      case More(t) => Turns(text, t, aware, n - 1)
  }

  /** `Endless` is what it says: once a turn does not advance, no number of turns does. */
  lemma {:induction false} StandsStillForEver(text: string, s: State, aware: bool, n: nat)
    requires var t := OneTurn(text, s, aware); t.More? && t.state.i == s.i
    ensures var t := Turns(text, s, aware, n); t.More? && t.state.i == s.i && |t.state.keys| == |s.keys| + n
    decreases n
  {
    if n != 0 {
      StandsStillForEver(text, OneTurn(text, s, aware).state, aware, n - 1);
    }
  }

  // ---- the twins agree ------------------------------------------------------------------------

  lemma {:induction false} ValuesAgree(text: string, i: nat, inner: nat)
    requires forall k :: 0 <= k < |text| ==> !IsQuote(text[k])
    ensures ValueStop(text, i, inner, None, true) == ValueStop(text, i, inner, None, false)
    decreases |text| - i
  {
    if i < |text| {
      var c := text[i];
      ValuesAgree(text, i + 1, if IsOpen(c) then inner + 1 else if IsClose(c) && inner > 0 then inner - 1 else inner);
    }
  }

  lemma {:induction false} TwinsAgreeFrom(text: string, s: State)
    requires forall k :: 0 <= k < |text| ==> !IsQuote(text[k])
    ensures ScanFrom(text, s, true) == ScanFrom(text, s, false)
    decreases |text| - s.i
  {
    ValuesAgree(text, s.i + 1, 0);
    assert OneTurn(text, s, true) == OneTurn(text, s, false);
    match OneTurn(text, s, true)
    case Done(_) =>
    case More(t) =>
      if t.i != s.i {
        TwinsAgreeFrom(text, t);
      }
  }

  /** On a text without quotes the two scanners return the same, from every start. */
  lemma TwinsAgree(text: string, brace: nat)
    requires forall k :: 0 <= k < |text| ==> !IsQuote(text[k])
    ensures LiteralKeys(text, brace) == LiteralMembers(text, brace)
  {
    TwinsAgreeFrom(text, Start(brace));
  }
}
