/** What `literal_keys` returns for an object literal, exactly: the top-level keys in order when the
    last value ends in a blank or a closing bracket, and something else when it does not. */
module LiteralGrammar {
  import opened Options
  import opened Text
  import opened QuotedText
  import opened LiteralScan

  // ---- object literals --------------------------------------------------------------------

  /** The text of a value: characters, closed strings, and bracketed texts. */
  datatype Piece =
    | Char(c: char)
    | Quoted(quote: char, parts: seq<Part>)
    | Group(open: char, body: seq<Piece>, close: char)

  /** At the top of a value a comma would end it. */
  predicate IsPiece(piece: Piece, top: bool) {
    match piece
    case Char(c) => !IsQuote(c) && !IsOpen(c) && !IsClose(c) && (top ==> c != ',')
    case Quoted(quote, parts) => IsQuote(quote) && forall i :: 0 <= i < |parts| ==> IsPart(parts[i], quote)
    case Group(open, body, close) =>
      IsOpen(open) && IsClose(close) && forall i :: 0 <= i < |body| ==> IsPiece(body[i], false)
  }

  predicate IsValue(value: seq<Piece>, top: bool) {
    forall i :: 0 <= i < |value| ==> IsPiece(value[i], top)
  }

  function SpellPiece(piece: Piece): (r: string)
    ensures r != ""
    decreases piece, 0
  {
    match piece
    case Char(c) => [c]
    case Quoted(quote, parts) => [quote] + SpellParts(parts) + [quote]
    case Group(open, body, close) => [open] + Spell(body) + [close]
  }

  function Spell(value: seq<Piece>): (r: string)
    decreases value
  {
    if value == [] then "" else SpellPiece(value[0]) + Spell(value[1..])
  }

  /** `name: value`, the shorthand `name`, or nothing but blanks. */
  datatype Member = Member(before: string, name: string, after: string, value: Option<seq<Piece>>)

  predicate IsNameChar(c: char) {
    !IsOpen(c) && !IsClose(c) && c != ',' && c != ':'
  }

  predicate IsMember(m: Member) {
    AllBlank(m.before) && AllBlank(m.after) && IsTrimmed(m.name) &&
    (forall i :: 0 <= i < |m.name| ==> IsNameChar(m.name[i])) &&
    (m.value.Some? ==> m.name != "" && IsValue(m.value.value, true))
  }

  function Label(m: Member): (r: string) {
    m.before + m.name + m.after
  }

  function SpellMember(m: Member): (r: string) {
    Label(m) + if m.value.Some? then ":" + Spell(m.value.value) else ""
  }

  /** The members of a literal from one on, up to and with its closing brace. */
  function SpellMembers(ms: seq<Member>): (r: string)
    requires ms != []
  {
    if |ms| == 1 then SpellMember(ms[0]) + "}" else SpellMember(ms[0]) + "," + SpellMembers(ms[1..])
  }

  function Literal(ms: seq<Member>): (r: string)
    requires ms != []
  {
    "{" + SpellMembers(ms)
  }

  function NameOf(m: Member): (r: seq<string>) {
    if m.name == "" then [] else [m.name]
  }

  function Names(ms: seq<Member>): (r: seq<string>) {
    if ms == [] then [] else NameOf(ms[0]) + Names(ms[1..])
  }

  ghost predicate AreMembers(ms: seq<Member>) {
    ms != [] && forall i :: 0 <= i < |ms| ==> IsMember(ms[i])
  }

  // ---- skipping a value -----------------------------------------------------------------------

  lemma {:induction false} SkipParts(text: string, i: nat, inner: nat, quote: char, parts: seq<Part>)
    requires IsQuote(quote) && forall k :: 0 <= k < |parts| ==> IsPart(parts[k], quote)
    requires At(text, i, SpellParts(parts)) && At(text, i + |SpellParts(parts)|, [quote])
    ensures ValueStop(text, i, inner, Some(quote), true)
            == ValueStop(text, i + |SpellParts(parts)| + 1, inner, None, true)
    decreases |parts|
  {
    if parts == [] {
      AtChar(text, i, quote);
    } else {
      assert IsPart(parts[0], quote);
      PartsAt(text, i, parts);
      SkipParts(text, i + Width(parts[0]), inner, quote, parts[1..]);
    }
  }

  lemma {:induction false} SkipPiece(text: string, i: nat, inner: nat, piece: Piece)
    requires IsPiece(piece, inner == 0) && At(text, i, SpellPiece(piece))
    ensures ValueStop(text, i, inner, None, true) == ValueStop(text, i + |SpellPiece(piece)|, inner, None, true)
    decreases piece, 1
  {
    match piece
    case Char(c) =>
      AtChar(text, i, c);
    case Quoted(quote, parts) =>
      AtEnclosed(text, i, quote, SpellParts(parts), quote);
      AtChar(text, i, quote);
      SkipParts(text, i + 1, inner, quote, parts);
    case Group(open, body, close) =>
      SkipGroup(text, i, inner, open, body, close);
  }

  lemma {:induction false} SkipGroup(text: string, i: nat, inner: nat, open: char, body: seq<Piece>, close: char)
    requires IsOpen(open) && IsClose(close) && IsValue(body, false) && At(text, i, [open] + Spell(body) + [close])
    ensures ValueStop(text, i, inner, None, true) == ValueStop(text, i + |Spell(body)| + 2, inner, None, true)
    decreases body, 1
  {
    AtEnclosed(text, i, open, Spell(body), close);
    AtChar(text, i, open);
    SkipPieces(text, i + 1, inner + 1, body);
    AtChar(text, i + 1 + |Spell(body)|, close);
  }

  lemma {:induction false} SkipPieces(text: string, i: nat, inner: nat, value: seq<Piece>)
    requires IsValue(value, inner == 0) && At(text, i, Spell(value))
    ensures ValueStop(text, i, inner, None, true) == ValueStop(text, i + |Spell(value)|, inner, None, true)
    decreases value, 0
  {
    if value != [] {
      assert IsPiece(value[0], inner == 0);
      AtConcat(text, i, SpellPiece(value[0]), Spell(value[1..]));
      SkipPiece(text, i, inner, value[0]);
      SkipPieces(text, i + |SpellPiece(value[0])|, inner, value[1..]);
    }
  }

  /** A value ends at the comma or the bracket that follows it. */
  lemma ValueEnds(text: string, i: nat, value: seq<Piece>, end: char)
    requires IsValue(value, true) && At(text, i, Spell(value)) && At(text, i + |Spell(value)|, [end]) &&
             end in {',', '}'}
    ensures ValueStop(text, i, 0, None, true)
         == if end == ',' then AtComma(i + |Spell(value)|) else AtClose(i + |Spell(value)|)
  {
    SkipPieces(text, i, 0, value);
    AtChar(text, i + |Spell(value)|, end);
  }

  // ---- reading members ------------------------------------------------------------------------------

  lemma {:induction false} ReadLabel(text: string, i: nat, key: string, keys: seq<string>, s: string)
    requires At(text, i, s) && forall k :: 0 <= k < |s| ==> IsNameChar(s[k])
    ensures ScanFrom(text, State(i, 1, key, keys), true) == ScanFrom(text, State(i + |s|, 1, key + s, keys), true)
    decreases |s|
  {
    if s == "" {
      assert key + s == key;
    } else {
      assert s == [s[0]] + s[1..];
      AtConcat(text, i, [s[0]], s[1..]);
      AtChar(text, i, s[0]);
      ReadLabel(text, i + 1, key + [s[0]], keys, s[1..]);
      assert key + [s[0]] + s[1..] == key + s;
    }
  }

  lemma LabelIsPlain(m: Member)
    requires IsMember(m)
    ensures forall k :: 0 <= k < |Label(m)| ==> IsNameChar(Label(m)[k])
    ensures Strip(Label(m)) == m.name
  {
    StripOver(m.before, m.name, m.after);
    forall k | 0 <= k < |Label(m)| ensures IsNameChar(Label(m)[k]) {
      if k < |m.before| {
        assert Label(m)[k] == m.before[k];
      } else if k < |m.before| + |m.name| {
        assert Label(m)[k] == m.name[k - |m.before|];
      } else {
        assert Label(m)[k] == m.after[k - |m.before| - |m.name|];
      }
    }
  }

  lemma ReadMemberLabel(text: string, i: nat, keys: seq<string>, m: Member)
    requires IsMember(m) && At(text, i, Label(m))
    ensures ScanFrom(text, State(i, 1, "", keys), true)
            == ScanFrom(text, State(i + |Label(m)|, 1, Label(m), keys), true)
  {
    LabelIsPlain(m);
    ReadLabel(text, i, "", keys, Label(m));
    assert "" + Label(m) == Label(m);
  }

  lemma CommaStep(text: string, k: nat, key: string, keys: seq<string>)
    requires k < |text| && text[k] == ','
    ensures ScanFrom(text, State(k, 1, key, keys), true)
            == ScanFrom(text, State(k + 1, 1, "", WithKey(keys, key)), true)
  {
  }

  lemma CloseStep(text: string, k: nat, key: string, keys: seq<string>)
    requires k < |text| && IsClose(text[k])
    ensures ScanFrom(text, State(k, 1, key, keys), true) == Keys(WithKey(keys, key))
  {
  }

  lemma ColonStep(text: string, j: nat, key: string, keys: seq<string>, stop: Stop)
    requires j < |text| && text[j] == ':' && stop == ValueStop(text, j + 1, 0, None, true) && !stop.AtEnd?
    ensures ScanFrom(text, State(j, 1, key, keys), true) ==
            var after := keys + [Strip(key)];
            if stop.AtComma? then ScanFrom(text, State(stop.j, 1, "", after), true)
            else if stop.j == j + 1 then Endless
            else ScanFrom(text, State(stop.j - 1, 1, "", after), true)
  {
  }

  lemma KeyAdded(keys: seq<string>, m: Member)
    requires IsMember(m)
    ensures WithKey(keys, Label(m)) == keys + NameOf(m)
    ensures m.name != "" ==> keys + [Strip(Label(m))] == keys + NameOf(m)
    ensures WithKey(keys, "") == keys
  {
    LabelIsPlain(m);
  }

  lemma AtColon(text: string, i: nat, name: string, value: string)
    requires At(text, i, name + (":" + value))
    ensures var j := i + |name|;
            At(text, i, name) && j < |text| && text[j] == ':' && At(text, j + 1, value)
  {
    AtConcat(text, i, name, ":" + value);
    AtConcat(text, i + |name|, ":", value);
    AtChar(text, i + |name|, ':');
  }

  /** Where the parts of a member stand. */
  lemma MemberParts(text: string, i: nat, m: Member)
    requires At(text, i, SpellMember(m))
    ensures At(text, i, Label(m))
    ensures m.value.Some? ==>
              var j := i + |Label(m)|;
              j < |text| && text[j] == ':' && At(text, j + 1, Spell(m.value.value)) &&
              i + |SpellMember(m)| == j + 1 + |Spell(m.value.value)|
    ensures m.value.None? ==> i + |SpellMember(m)| == i + |Label(m)|
  {
    if m.value.Some? {
      AtColon(text, i, Label(m), Spell(m.value.value));
    } else {
      assert SpellMember(m) == Label(m);
    }
  }

  /** A shorthand followed by a comma. */
  lemma ReadShorthand(text: string, i: nat, keys: seq<string>, m: Member)
    requires IsMember(m) && m.value.None? && At(text, i, Label(m)) && At(text, i + |Label(m)|, ",")
    ensures ScanFrom(text, State(i, 1, "", keys), true)
            == ScanFrom(text, State(i + |Label(m)| + 1, 1, "", keys + NameOf(m)), true)
  {
    ReadMemberLabel(text, i, keys, m);
    AtChar(text, i + |Label(m)|, ',');
    CommaStep(text, i + |Label(m)|, Label(m), keys);
    KeyAdded(keys, m);
  }

  /** A member followed by a comma adds its key, and the scan goes on after the comma. */
  lemma ReadMember(text: string, i: nat, keys: seq<string>, m: Member)
    requires IsMember(m) && At(text, i, SpellMember(m)) && At(text, i + |SpellMember(m)|, ",")
    ensures ScanFrom(text, State(i, 1, "", keys), true)
            == ScanFrom(text, State(i + |SpellMember(m)| + 1, 1, "", keys + NameOf(m)), true)
  {
    MemberParts(text, i, m);
    if m.value.None? {
      ReadShorthand(text, i, keys, m);
    } else {
      ReadMemberLabel(text, i, keys, m);
      ReadValue(text, i + |Label(m)|, keys, m);
    }
  }

  lemma ColonThenComma(text: string, j: nat, end: nat, name: string, keys: seq<string>)
    requires j < end < |text| && text[j] == ':' && text[end] == ',' &&
             ValueStop(text, j + 1, 0, None, true) == AtComma(end)
    ensures ScanFrom(text, State(j, 1, name, keys), true)
            == ScanFrom(text, State(end + 1, 1, "", keys + [Strip(name)]), true)
  {
    ColonStep(text, j, name, keys, AtComma(end));
    CommaStep(text, end, "", keys + [Strip(name)]);
    assert WithKey(keys + [Strip(name)], "") == keys + [Strip(name)];
  }

  lemma ReadValue(text: string, j: nat, keys: seq<string>, m: Member)
    requires IsMember(m) && m.value.Some? && j < |text| && text[j] == ':' && At(text, j + 1, Spell(m.value.value))
    requires At(text, j + 1 + |Spell(m.value.value)|, ",")
    ensures ScanFrom(text, State(j, 1, Label(m), keys), true)
         == ScanFrom(text, State(j + 1 + |Spell(m.value.value)| + 1, 1, "", keys + NameOf(m)), true)
  {
    ValueEndsAtComma(text, j + 1, m.value.value);
    ColonThenComma(text, j, j + 1 + |Spell(m.value.value)|, Label(m), keys);
    KeyOfLabel(keys, m);
  }

  lemma ValueEndsAtComma(text: string, i: nat, value: seq<Piece>)
    requires IsValue(value, true) && At(text, i, Spell(value)) && At(text, i + |Spell(value)|, ",")
    ensures var end := i + |Spell(value)|;
            end < |text| && text[end] == ',' && ValueStop(text, i, 0, None, true) == AtComma(end)
  {
    AtChar(text, i + |Spell(value)|, ',');
    ValueEnds(text, i, value, ',');
  }

  lemma KeyOfLabel(keys: seq<string>, m: Member)
    requires IsMember(m) && m.name != ""
    ensures keys + [Strip(Label(m))] == keys + NameOf(m)
  {
    KeyAdded(keys, m);
  }

  /** How the last value of a literal ends; a literal can end without one. */
  datatype Ending = Harmless | Stuck | Reread(c: char)

  function EndingOf(m: Member): (r: Ending) {
    if m.value.None? then Harmless
    else
      var text := Spell(m.value.value);
      if text == "" then Stuck
      else
        var c := text[|text| - 1];
        if c == ':' then Stuck else if IsBlank(c) || IsClose(c) then Harmless else Reread(c)
  }

  function Expected(keys: seq<string>, ending: Ending): (r: Scan) {
    match ending
    case Harmless => Keys(keys)
    case Stuck => Endless
    case Reread(c) => Keys(keys + [[c]])
  }

  lemma ReadLastShorthand(text: string, i: nat, keys: seq<string>, m: Member)
    requires IsMember(m) && m.value.None? && At(text, i, Label(m)) && At(text, i + |Label(m)|, "}")
    ensures ScanFrom(text, State(i, 1, "", keys), true) == Keys(keys + NameOf(m))
  {
    ReadMemberLabel(text, i, keys, m);
    AtChar(text, i + |Label(m)|, '}');
    CloseStep(text, i + |Label(m)|, Label(m), keys);
    KeyAdded(keys, m);
  }

  /** The last member: its key, unless the character before the closing brace is read again. */
  lemma ReadLastMember(text: string, i: nat, keys: seq<string>, m: Member)
    requires IsMember(m) && At(text, i, SpellMember(m)) && At(text, i + |SpellMember(m)|, "}")
    ensures ScanFrom(text, State(i, 1, "", keys), true) == Expected(keys + NameOf(m), EndingOf(m))
  {
    MemberParts(text, i, m);
    if m.value.None? {
      ReadLastShorthand(text, i, keys, m);
    } else {
      ReadMemberLabel(text, i, keys, m);
      ReadLastValue(text, i + |Label(m)|, keys, m);
    }
  }

  lemma ReadLastValue(text: string, j: nat, keys: seq<string>, m: Member)
    requires IsMember(m) && m.value.Some? && j < |text| && text[j] == ':' && At(text, j + 1, Spell(m.value.value))
    requires At(text, j + 1 + |Spell(m.value.value)|, "}")
    ensures ScanFrom(text, State(j, 1, Label(m), keys), true) == Expected(keys + NameOf(m), EndingOf(m))
  {
    var end := j + 1 + |Spell(m.value.value)|;
    assert end < |text| && text[end] == '}' && ValueStop(text, j + 1, 0, None, true) == AtClose(end) by {
      AtChar(text, end, '}');
      ValueEnds(text, j + 1, m.value.value, '}');
    }
    ColonThenClose(text, j, end, Label(m), keys);
    KeyAdded(keys, m);
    if end > j + 1 {
      ReadLastChar(text, end, keys + NameOf(m), m);
    }
  }

  lemma ColonThenClose(text: string, j: nat, end: nat, name: string, keys: seq<string>)
    requires j < end < |text| && text[j] == ':' && ValueStop(text, j + 1, 0, None, true) == AtClose(end)
    ensures ScanFrom(text, State(j, 1, name, keys), true) ==
            if end == j + 1 then Endless else ScanFrom(text, State(end - 1, 1, "", keys + [Strip(name)]), true)
  {
    ColonStep(text, j, name, keys, AtClose(end));
  }

  lemma ReadLastChar(text: string, end: nat, keys: seq<string>, m: Member)
    requires IsMember(m) && m.value.Some? && end < |text| && text[end] == '}' && |Spell(m.value.value)| <= end
    requires At(text, end - |Spell(m.value.value)|, Spell(m.value.value)) && Spell(m.value.value) != ""
    ensures ScanFrom(text, State(end - 1, 1, "", keys), true) == Expected(keys, EndingOf(m))
  {
    var value := Spell(m.value.value);
    assert text[end - |value| + (|value| - 1)] == value[|value| - 1];
    LastCharIsNotOpen(m.value.value);
    RereadLastChar(text, end, keys);
  }

  lemma {:induction false} LastCharIsNotOpen(value: seq<Piece>)
    requires IsValue(value, true) && Spell(value) != ""
    ensures var c := Spell(value)[|Spell(value)| - 1]; !IsOpen(c) && c != ','
    decreases |value|
  {
    assert IsPiece(value[0], true);
    if |value| > 1 {
      assert IsPiece(value[1], true);
      LastCharIsNotOpen(value[1..]);
    } else {
      assert value[1..] == [];
      assert Spell(value) == SpellPiece(value[0]);
    }
  }

  /** From one character before the closing brace. */
  lemma RereadLastChar(text: string, k: nat, keys: seq<string>)
    requires 0 < k < |text| && text[k] == '}' && !IsOpen(text[k - 1]) && text[k - 1] != ','
    ensures ScanFrom(text, State(k - 1, 1, "", keys), true) ==
            var c := text[k - 1];
            if c == ':' then Endless else if IsBlank(c) || IsClose(c) then Keys(keys) else Keys(keys + [[c]])
  {
    var c := text[k - 1];
    var s := State(k - 1, 1, "", keys);
    if IsClose(c) {
      assert WithKey(keys, "") == keys;
    } else if c == ':' {
      assert ValueStop(text, k, 0, None, true) == AtClose(k);
    } else {
      assert "" + [c] == [c];
      assert OneTurn(text, s, true) == More(State(k, 1, [c], keys));
      OneCharStripped(c);
      assert OneTurn(text, State(k, 1, [c], keys), true) == Done(Keys(WithKey(keys, [c])));
    }
  }

  lemma OneCharStripped(c: char)
    ensures Strip([c]) == if IsBlank(c) then "" else [c]
  {
    if IsBlank(c) {
      assert [c][1..] == "";
      assert SkipBlanks([c]) == SkipBlanks("") == "";
    }
  }

  /** Where the first member of several stands, and the others. */
  lemma MembersAt(text: string, i: nat, ms: seq<Member>)
    requires |ms| > 1 && At(text, i, SpellMembers(ms))
    ensures At(text, i, SpellMember(ms[0])) && At(text, i + |SpellMember(ms[0])|, ",")
    ensures At(text, i + |SpellMember(ms[0])| + 1, SpellMembers(ms[1..]))
  {
    AtConcat(text, i, SpellMember(ms[0]) + ",", SpellMembers(ms[1..]));
    AtConcat(text, i, SpellMember(ms[0]), ",");
  }

  lemma ReadOnlyMember(text: string, i: nat, keys: seq<string>, ms: seq<Member>)
    requires AreMembers(ms) && |ms| == 1 && At(text, i, SpellMembers(ms))
    ensures ScanFrom(text, State(i, 1, "", keys), true) == Expected(keys + Names(ms), EndingOf(ms[|ms| - 1]))
  {
    var m := ms[0];
    AtConcat(text, i, SpellMember(m), "}");
    ReadLastMember(text, i, keys, m);
    NamesJoin(keys, ms);
    assert keys + NameOf(m) + Names([]) == keys + NameOf(m);
  }

  lemma ReadFirstMember(text: string, i: nat, keys: seq<string>, ms: seq<Member>)
    requires AreMembers(ms) && |ms| > 1 && At(text, i, SpellMembers(ms))
    ensures var j := i + |SpellMember(ms[0])| + 1;
            ScanFrom(text, State(i, 1, "", keys), true)
            == ScanFrom(text, State(j, 1, "", keys + NameOf(ms[0])), true) &&
            At(text, j, SpellMembers(ms[1..])) && AreMembers(ms[1..])
  {
    assert IsMember(ms[0]);
    MembersAt(text, i, ms);
    ReadMember(text, i, keys, ms[0]);
  }

  lemma {:induction false} ReadMembers(text: string, i: nat, keys: seq<string>, ms: seq<Member>)
    requires AreMembers(ms) && At(text, i, SpellMembers(ms))
    ensures ScanFrom(text, State(i, 1, "", keys), true) == Expected(keys + Names(ms), EndingOf(ms[|ms| - 1]))
    decreases |ms|
  {
    if |ms| == 1 {
      ReadOnlyMember(text, i, keys, ms);
    } else {
      ReadFirstMember(text, i, keys, ms);
      ReadMembers(text, i + |SpellMember(ms[0])| + 1, keys + NameOf(ms[0]), ms[1..]);
      NamesJoin(keys, ms);
    }
  }

  lemma NamesJoin(keys: seq<string>, ms: seq<Member>)
    requires ms != []
    ensures keys + NameOf(ms[0]) + Names(ms[1..]) == keys + Names(ms)
  {
    assert keys + (NameOf(ms[0]) + Names(ms[1..])) == keys + NameOf(ms[0]) + Names(ms[1..]);
  }

  /** What `literal_keys` returns for a literal, whatever text is around it. */
  lemma LiteralIsRead(text: string, brace: nat, ms: seq<Member>)
    requires AreMembers(ms) && At(text, brace, Literal(ms))
    ensures LiteralKeys(text, brace) == Expected(Names(ms), EndingOf(ms[|ms| - 1]))
  {
    AtConcat(text, brace, "{", SpellMembers(ms));
    AtChar(text, brace, '{');
    OpenStep(text, brace);
    ReadMembers(text, brace + 1, [], ms);
    assert [] + Names(ms) == Names(ms);
  }

  lemma OpenStep(text: string, brace: nat)
    requires brace < |text| && text[brace] == '{'
    ensures LiteralKeys(text, brace) == ScanFrom(text, State(brace + 1, 1, "", []), true)
  {
  }

  /** It returns exactly the keys when, and only when, the last value ends in a blank or a closing
      bracket. */
  lemma KeysExactlyWhenHarmless(text: string, brace: nat, ms: seq<Member>)
    requires AreMembers(ms) && At(text, brace, Literal(ms))
    ensures LiteralKeys(text, brace) == Keys(Names(ms)) <==> EndingOf(ms[|ms| - 1]) == Harmless
  {
    LiteralIsRead(text, brace, ms);
    assert forall c: char :: |Names(ms) + [[c]]| != |Names(ms)|;
  }
}
