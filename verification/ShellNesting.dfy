/** Command substitution in the documentation's shell finds its own closing bracket: exactly the text
    whose brackets balance outside closed quotes is taken, however it is nested. */
module ShellNesting {
  import opened Options
  import opened Shell
  import opened Text
  import opened QuotedText

  /** A text with balanced brackets: plain characters, quoted stretches and bracketed texts. */
  datatype Piece =
    | Plain(c: char)
    | Single(text: string)
    | Double(parts: seq<Part>)
    | Paren(body: seq<Piece>)

  predicate IsPiece(piece: Piece) {
    match piece
    case Plain(c) => c !in {'\'', '"', '(', ')'}
    case Single(text) => '\'' !in text
    case Double(parts) => forall i :: 0 <= i < |parts| ==> IsPart(parts[i], '"')
    case Paren(body) => forall i :: 0 <= i < |body| ==> IsPiece(body[i])
  }

  predicate IsBody(body: seq<Piece>) {
    forall i :: 0 <= i < |body| ==> IsPiece(body[i])
  }

  function SpellPiece(piece: Piece): (r: string)
    decreases piece, 0
  {
    match piece
    case Plain(c) => [c]
    case Single(text) => "'" + text + "'"
    case Double(parts) => "\"" + SpellParts(parts) + "\""
    case Paren(body) => "(" + Spell(body) + ")"
  }

  function Spell(body: seq<Piece>): (r: string)
    decreases body
  {
    if body == [] then "" else SpellPiece(body[0]) + Spell(body[1..])
  }

  // ---- a balanced text is skipped -------------------------------------------------------

  lemma {:induction false} SkipSingle(line: string, j: nat, depth: nat, text: string)
    requires depth > 0 && '\'' !in text && At(line, j, text) && At(line, j + |text|, "'")
    ensures Matching(line, j, depth, Some('\'')) == Matching(line, j + |text| + 1, depth, None)
    decreases |text|
  {
    if text == "" {
      AtChar(line, j, '\'');
    } else {
      assert text == [text[0]] + text[1..];
      AtConcat(line, j, [text[0]], text[1..]);
      AtChar(line, j, text[0]);
      SkipSingle(line, j + 1, depth, text[1..]);
    }
  }

  lemma {:induction false} SkipDouble(line: string, j: nat, depth: nat, parts: seq<Part>)
    requires depth > 0 && At(line, j, SpellParts(parts)) && At(line, j + |SpellParts(parts)|, "\"")
    requires forall i :: 0 <= i < |parts| ==> IsPart(parts[i], '"')
    ensures Matching(line, j, depth, Some('"')) == Matching(line, j + |SpellParts(parts)| + 1, depth, None)
    decreases |parts|
  {
    if parts == [] {
      AtChar(line, j, '"');
    } else {
      assert IsPart(parts[0], '"');
      PartsAt(line, j, parts);
      SkipDouble(line, j + Width(parts[0]), depth, parts[1..]);
    }
  }

  lemma {:induction false} SkipPiece(line: string, j: nat, depth: nat, piece: Piece)
    requires depth > 0 && IsPiece(piece) && At(line, j, SpellPiece(piece))
    ensures Matching(line, j, depth, None) == Matching(line, j + |SpellPiece(piece)|, depth, None)
    decreases piece, 1
  {
    match piece
    case Plain(c) =>
      AtChar(line, j, c);
    case Single(text) =>
      AtEnclosed(line, j, '\'', text, '\'');
      AtChar(line, j, '\'');
      SkipSingle(line, j + 1, depth, text);
    case Double(parts) =>
      AtEnclosed(line, j, '"', SpellParts(parts), '"');
      AtChar(line, j, '"');
      SkipDouble(line, j + 1, depth, parts);
    case Paren(body) =>
      SkipParen(line, j, depth, body);
  }

  lemma {:induction false} SkipParen(line: string, j: nat, depth: nat, body: seq<Piece>)
    requires depth > 0 && IsBody(body) && At(line, j, "(" + Spell(body) + ")")
    ensures Matching(line, j, depth, None) == Matching(line, j + |Spell(body)| + 2, depth, None)
    decreases body, 1
  {
    AtEnclosed(line, j, '(', Spell(body), ')');
    AtChar(line, j, '(');
    SkipBody(line, j + 1, depth + 1, body);
    AtChar(line, j + 1 + |Spell(body)|, ')');
  }

  lemma {:induction false} SkipBody(line: string, j: nat, depth: nat, body: seq<Piece>)
    requires depth > 0 && IsBody(body) && At(line, j, Spell(body))
    ensures Matching(line, j, depth, None) == Matching(line, j + |Spell(body)|, depth, None)
    decreases body, 0
  {
    if body != [] {
      assert IsPiece(body[0]);
      AtConcat(line, j, SpellPiece(body[0]), Spell(body[1..]));
      SkipPiece(line, j, depth, body[0]);
      SkipBody(line, j + |SpellPiece(body[0])|, depth, body[1..]);
    }
  }

  /** `expand` stops at exactly the bracket that closes its own. */
  lemma SubstitutionFindsItsBracket(line: string, i: nat, body: seq<Piece>)
    requires IsBody(body) && At(line, i, "$") && At(line, i + 1, "(" + Spell(body) + ")")
    ensures var close := i + 2 + |Spell(body)| + 1;
            Matching(line, i + 2, 1, None) == Some(close) && close <= |line| && line[i + 2..close - 1] == Spell(body)
  {
    AtEnclosed(line, i + 1, '(', Spell(body), ')');
    SkipBody(line, i + 2, 1, body);
    AtChar(line, i + 2 + |Spell(body)|, ')');
    AtIsSlice(line, i + 2, Spell(body));
  }

  // ---- what is found is balanced --------------------------------------------------------------

  /** Bodies closed one after the other: `b0)b1)...bn)`. */
  function SpellAll(bodies: seq<seq<Piece>>): (r: string) {
    if bodies == [] then "" else Spell(bodies[0]) + (")" + SpellAll(bodies[1..]))
  }

  ghost predicate AreBodies(bodies: seq<seq<Piece>>) {
    forall i :: 0 <= i < |bodies| ==> IsBody(bodies[i])
  }

  lemma PrependPiece(piece: Piece, bodies: seq<seq<Piece>>) returns (r: seq<seq<Piece>>)
    requires IsPiece(piece) && AreBodies(bodies) && bodies != []
    ensures |r| == |bodies| && AreBodies(r) && SpellAll(r) == SpellPiece(piece) + SpellAll(bodies)
  {
    var first := [piece] + bodies[0];
    assert first[1..] == bodies[0];
    r := [first] + bodies[1..];
    assert r[1..] == bodies[1..];
    var rest := ")" + SpellAll(bodies[1..]);
    assert (SpellPiece(piece) + Spell(bodies[0])) + rest == SpellPiece(piece) + (Spell(bodies[0]) + rest);
    forall i | 0 <= i < |r| ensures IsBody(r[i]) {
      assert IsBody(bodies[i]);
    }
  }

  lemma CloseBody(bodies: seq<seq<Piece>>) returns (r: seq<seq<Piece>>)
    requires AreBodies(bodies)
    ensures |r| == |bodies| + 1 && AreBodies(r) && SpellAll(r) == ")" + SpellAll(bodies)
  {
    r := [[]] + bodies;
    assert r[1..] == bodies;
    forall i | 0 <= i < |r| ensures IsBody(r[i]) {
      if i > 0 {
        assert IsBody(bodies[i - 1]);
      }
    }
  }

  lemma Rebracket(inside: string, rest: string)
    ensures ("(" + inside + ")") + rest == "(" + (inside + (")" + rest))
  {
  }

  lemma FoldParen(bodies: seq<seq<Piece>>) returns (r: seq<seq<Piece>>)
    requires AreBodies(bodies) && |bodies| > 1
    ensures |r| == |bodies| - 1 && AreBodies(r) && SpellAll(r) == "(" + SpellAll(bodies)
  {
    assert IsBody(bodies[0]);
    forall i | 0 <= i < |bodies[1..]| ensures IsBody(bodies[1..][i]) {
      assert IsBody(bodies[i + 1]);
    }
    r := PrependPiece(Paren(bodies[0]), bodies[1..]);
    Rebracket(Spell(bodies[0]), SpellAll(bodies[1..]));
  }

  /** The closing quote a successful search went through. */
  lemma {:induction false} SingleCloses(line: string, j: nat, depth: nat, e: nat) returns (text: string)
    requires depth > 0 && Matching(line, j, depth, Some('\'')) == Some(e)
    ensures '\'' !in text && At(line, j, text) && At(line, j + |text|, "'")
    ensures Matching(line, j + |text| + 1, depth, None) == Some(e)
    decreases |line| - j
  {
    if line[j] == '\'' {
      text := "";
      AtChar(line, j, '\'');
    } else {
      var more := SingleCloses(line, j + 1, depth, e);
      text := [line[j]] + more;
      AtChar(line, j, line[j]);
      AtConcat(line, j, [line[j]], more);
    }
  }

  lemma AtEscape(line: string, j: nat, more: seq<Part>)
    requires j + 1 < |line| && line[j] == '\\' && At(line, j + 2, SpellParts(more))
    ensures var parts := [Escape(line[j + 1])] + more;
            At(line, j, SpellParts(parts)) && |SpellParts(parts)| == 2 + |SpellParts(more)|
  {
    var parts := [Escape(line[j + 1])] + more;
    assert parts[1..] == more;
    AtConcat(line, j, ['\\', line[j + 1]], SpellParts(more));
  }

  lemma AtPlainPart(line: string, j: nat, more: seq<Part>)
    requires j < |line| && At(line, j + 1, SpellParts(more))
    ensures var parts := [Verbatim(line[j])] + more;
            At(line, j, SpellParts(parts)) && |SpellParts(parts)| == 1 + |SpellParts(more)|
  {
    var parts := [Verbatim(line[j])] + more;
    assert parts[1..] == more;
    AtConcat(line, j, [line[j]], SpellParts(more));
  }

  lemma {:induction false} DoubleCloses(line: string, j: nat, depth: nat, e: nat) returns (parts: seq<Part>)
    requires depth > 0 && Matching(line, j, depth, Some('"')) == Some(e)
    ensures forall i :: 0 <= i < |parts| ==> IsPart(parts[i], '"')
    ensures At(line, j, SpellParts(parts)) && At(line, j + |SpellParts(parts)|, "\"")
    ensures Matching(line, j + |SpellParts(parts)| + 1, depth, None) == Some(e)
    decreases |line| - j
  {
    if line[j] == '"' {
      parts := [];
      AtChar(line, j, '"');
    } else if line[j] == '\\' {
      var more := DoubleCloses(line, j + 2, depth, e);
      AtEscape(line, j, more);
      parts := [Escape(line[j + 1])] + more;
    } else {
      var more := DoubleCloses(line, j + 1, depth, e);
      AtPlainPart(line, j, more);
      parts := [Verbatim(line[j])] + more;
    }
  }

  /** What a search at `depth` levels consumed is that many bodies, each closed. */
  lemma {:induction false} FoundIsBalanced(line: string, j: nat, depth: nat, e: nat) returns (bodies: seq<seq<Piece>>)
    requires depth > 0 && Matching(line, j, depth, None) == Some(e)
    ensures |bodies| == depth && AreBodies(bodies) && At(line, j, SpellAll(bodies)) && e == j + |SpellAll(bodies)|
    decreases |line| - j, 1
  {
    var c := line[j];
    if c == '\'' {
      bodies := AfterSingle(line, j, depth, e);
    } else if c == '"' {
      bodies := AfterDouble(line, j, depth, e);
    } else if c == '(' {
      bodies := AfterOpen(line, j, depth, e);
    } else if c == ')' {
      bodies := AfterClose(line, j, depth, e);
    } else {
      bodies := AfterPlain(line, j, depth, e);
    }
  }

  lemma {:induction false} AfterSingle(line: string, j: nat, depth: nat, e: nat) returns (bodies: seq<seq<Piece>>)
    requires depth > 0 && j < |line| && line[j] == '\'' && Matching(line, j + 1, depth, Some('\'')) == Some(e)
    ensures |bodies| == depth && AreBodies(bodies) && At(line, j, SpellAll(bodies)) && e == j + |SpellAll(bodies)|
    decreases |line| - j, 0, 1
  {
    var text := SingleCloses(line, j + 1, depth, e);
    AtChar(line, j, '\'');
    AtEnclosed(line, j, '\'', text, '\'');
    bodies := AfterPiece(line, j, depth, e, Single(text));
  }

  lemma {:induction false} AfterDouble(line: string, j: nat, depth: nat, e: nat) returns (bodies: seq<seq<Piece>>)
    requires depth > 0 && j < |line| && line[j] == '"' && Matching(line, j + 1, depth, Some('"')) == Some(e)
    ensures |bodies| == depth && AreBodies(bodies) && At(line, j, SpellAll(bodies)) && e == j + |SpellAll(bodies)|
    decreases |line| - j, 0, 1
  {
    var parts := DoubleCloses(line, j + 1, depth, e);
    AtDouble(line, j, parts, SpellParts(parts));
    bodies := AfterPiece(line, j, depth, e, Double(parts));
  }

  lemma AtDouble(line: string, j: nat, parts: seq<Part>, text: string)
    requires text == SpellParts(parts)
    requires j < |line| && line[j] == '"' && At(line, j + 1, text) && At(line, j + 1 + |text|, "\"")
    ensures At(line, j, SpellPiece(Double(parts))) && |SpellPiece(Double(parts))| == |text| + 2
  {
    AtChar(line, j, '"');
    AtEnclosed(line, j, '"', text, '"');
    assert SpellPiece(Double(parts)) == ['"'] + text + ['"'];
  }

  lemma {:induction false} AfterPlain(line: string, j: nat, depth: nat, e: nat) returns (bodies: seq<seq<Piece>>)
    requires depth > 0 && j < |line| && line[j] !in {'\'', '"', '(', ')'} &&
             Matching(line, j + 1, depth, None) == Some(e)
    ensures |bodies| == depth && AreBodies(bodies) && At(line, j, SpellAll(bodies)) && e == j + |SpellAll(bodies)|
    decreases |line| - j, 0, 1
  {
    AtChar(line, j, line[j]);
    bodies := AfterPiece(line, j, depth, e, Plain(line[j]));
  }

  lemma {:induction false} AfterOpen(line: string, j: nat, depth: nat, e: nat) returns (bodies: seq<seq<Piece>>)
    requires depth > 0 && j < |line| && line[j] == '(' && Matching(line, j + 1, depth + 1, None) == Some(e)
    ensures |bodies| == depth && AreBodies(bodies) && At(line, j, SpellAll(bodies)) && e == j + |SpellAll(bodies)|
    decreases |line| - j, 0
  {
    var inner := FoundIsBalanced(line, j + 1, depth + 1, e);
    bodies := FoldParen(inner);
    AtChar(line, j, '(');
    AtConcat(line, j, "(", SpellAll(inner));
  }

  lemma {:induction false} AfterClose(line: string, j: nat, depth: nat, e: nat) returns (bodies: seq<seq<Piece>>)
    requires depth > 0 && j < |line| && line[j] == ')' && Matching(line, j + 1, depth - 1, None) == Some(e)
    ensures |bodies| == depth && AreBodies(bodies) && At(line, j, SpellAll(bodies)) && e == j + |SpellAll(bodies)|
    decreases |line| - j, 0
  {
    var rest: seq<seq<Piece>> := [];
    if depth > 1 {
      rest := FoundIsBalanced(line, j + 1, depth - 1, e);
    }
    bodies := CloseBody(rest);
    AtChar(line, j, ')');
    AtConcat(line, j, ")", SpellAll(rest));
  }

  lemma {:induction false} AfterPiece(line: string, j: nat, depth: nat, e: nat, piece: Piece)
    returns (bodies: seq<seq<Piece>>)
    requires depth > 0 && IsPiece(piece) && |SpellPiece(piece)| > 0 && At(line, j, SpellPiece(piece))
    requires Matching(line, j + |SpellPiece(piece)|, depth, None) == Some(e)
    ensures |bodies| == depth && AreBodies(bodies) && At(line, j, SpellAll(bodies)) && e == j + |SpellAll(bodies)|
    decreases |line| - j, 0, 0
  {
    var rest := FoundIsBalanced(line, j + |SpellPiece(piece)|, depth, e);
    bodies := PrependPiece(piece, rest);
    AtConcat(line, j, SpellPiece(piece), SpellAll(rest));
  }

  /** Whenever a substitution is found at all, what it takes is a balanced text: together with
      `SubstitutionFindsItsBracket`, the search succeeds exactly on those. */
  lemma SubstitutionTakesBalancedText(line: string, i: nat, e: nat) returns (body: seq<Piece>)
    requires i + 2 <= |line| && Matching(line, i + 2, 1, None) == Some(e)
    ensures IsBody(body) && At(line, i + 2, Spell(body) + ")") && e == i + 2 + |Spell(body)| + 1
  {
    var bodies := FoundIsBalanced(line, i + 2, 1, e);
    body := bodies[0];
    assert SpellAll(bodies[1..]) == "";
    assert SpellAll(bodies) == Spell(body) + ")";
  }
}
