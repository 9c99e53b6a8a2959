/** The inside of a quoted stretch of text, shared by the readers of shell lines and of object literals. */
module QuotedText {
  import opened Text

  datatype Part = Verbatim(c: char) | Escape(c: char)

  predicate IsPart(part: Part, quote: char) {
    part.Verbatim? ==> part.c != quote && part.c != '\\'
  }

  function SpellParts(parts: seq<Part>): (r: string) {
    if parts == [] then ""
    else (if parts[0].Escape? then ['\\', parts[0].c] else [parts[0].c]) + SpellParts(parts[1..])
  }

  /** How many characters a part takes. */
  function Width(part: Part): (n: nat) {
    if part.Escape? then 2 else 1
  }

  /** Where the first part stands, and the others. */
  lemma PartsAt(text: string, i: nat, parts: seq<Part>)
    requires parts != [] && At(text, i, SpellParts(parts))
    ensures i + Width(parts[0]) <= |text| && text[i] == if parts[0].Escape? then '\\' else parts[0].c
    ensures At(text, i + Width(parts[0]), SpellParts(parts[1..]))
    ensures |SpellParts(parts)| == Width(parts[0]) + |SpellParts(parts[1..])|
  {
    var c := parts[0].c;
    if parts[0].Escape? {
      AtConcat(text, i, ['\\', c], SpellParts(parts[1..]));
      assert ['\\', c] == ['\\'] + [c];
      AtConcat(text, i, ['\\'], [c]);
      AtChar(text, i, '\\');
    } else {
      AtConcat(text, i, [c], SpellParts(parts[1..]));
      AtChar(text, i, c);
    }
  }
}
