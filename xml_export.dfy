/**
 * ExportadorXML: the escaping of text content (escaparXML) and the document
 * exportar writes: the declaration, the root <cuenta>, the <titular> block
 * with the owner's escaped name and DNI and numeric age, one <movimiento>
 * element per movement in ledger order, and the closing tags.
 */
module XmlExport {
  import opened Wrappers
  import opened JavaStrings
  import opened Clients
  import opened Movements
  import opened Accounts
  import opened Exports

  // ---------------------------------------------------------------- escaping

  /** The characters that may not appear raw in the escaped text. */
  predicate IsMarkup(c: char) {
    c == '<' || c == '>' || c == '"' || c == '\''
  }

  /** The five replace calls of escaparXML, in the order they are made. */
  function ReplaceChain(s: string): string {
    Replace(Replace(Replace(Replace(Replace(s, '&', "&amp;"), '<', "&lt;"), '>', "&gt;"), '"', "&quot;"), '\'', "&apos;")
  }

  /** What the chain does to a single character: one of the five predefined
      entities of section 4.6 of XML 1.0, or the character itself. */
  function Entity(c: char): string {
    if c == '&' then "&amp;"
    else if c == '<' then "&lt;"
    else if c == '>' then "&gt;"
    else if c == '"' then "&quot;"
    else if c == '\'' then "&apos;"
    else [c]
  }

  /** Each character replaced by its entity, independently. */
  function EscapeEach(s: string): string {
    if s == [] then [] else Entity(s[0]) + EscapeEach(s[1..])
  }

  /** The reader's side: the five entities are decoded, and a raw markup
      character or an '&' that starts none of the entities is an error. */
  function DecodeXml(s: string): Option<string>
    decreases |s|
  {
    if s == [] then Some([])
    else if s[0] == '&' then
      if StartsWith(s, "&amp;") then Prepend('&', DecodeXml(s[5..]))
      else if StartsWith(s, "&lt;") then Prepend('<', DecodeXml(s[4..]))
      else if StartsWith(s, "&gt;") then Prepend('>', DecodeXml(s[4..]))
      else if StartsWith(s, "&quot;") then Prepend('"', DecodeXml(s[6..]))
      else if StartsWith(s, "&apos;") then Prepend('\'', DecodeXml(s[6..]))
      else None
    else if IsMarkup(s[0]) then None
    else Prepend(s[0], DecodeXml(s[1..]))
  }

  /** escaparXML: null gives the empty text; otherwise no raw markup
      character is left. */
  function EscapeXml(texto: Option<string>): (r: string)
    ensures texto.None? ==> r == []
    ensures '<' !in r && '>' !in r && '"' !in r && '\'' !in r
  {
    match texto
    case None => []
    case Some(s) =>
      ChainIsEach(s);
      EscapeEachSafe(s);
      ReplaceChain(s)
  }

  /** Decoding the five entities gives back the text escaparXML was given,
      because '&' is replaced before any entity is introduced. */
  lemma EscapeXmlRoundTrip(s: string)
    ensures DecodeXml(EscapeXml(Some(s))) == Some(s)
  {
    ChainIsEach(s);
    XmlRoundTrip(s);
  }

  lemma ChainConcat(a: string, b: string)
    ensures ReplaceChain(a + b) == ReplaceChain(a) + ReplaceChain(b)
  {
    var a1, b1 := Replace(a, '&', "&amp;"), Replace(b, '&', "&amp;");
    ReplaceConcat(a, b, '&', "&amp;");
    var a2, b2 := Replace(a1, '<', "&lt;"), Replace(b1, '<', "&lt;");
    ReplaceConcat(a1, b1, '<', "&lt;");
    var a3, b3 := Replace(a2, '>', "&gt;"), Replace(b2, '>', "&gt;");
    ReplaceConcat(a2, b2, '>', "&gt;");
    var a4, b4 := Replace(a3, '"', "&quot;"), Replace(b3, '"', "&quot;");
    ReplaceConcat(a3, b3, '"', "&quot;");
    ReplaceConcat(a4, b4, '\'', "&apos;");
  }

  lemma ChainOne(c: char)
    ensures ReplaceChain([c]) == Entity(c)
  {
    ReplaceOne(c, '&', "&amp;");
    if c == '&' {
      AmpKept();
    } else {
      ReplaceOne(c, '<', "&lt;");
      if c == '<' {
        LtKept();
      } else {
        ReplaceOne(c, '>', "&gt;");
        if c == '>' {
          GtKept();
        } else {
          ReplaceOne(c, '"', "&quot;");
          if c == '"' {
            QuotKept();
          } else {
            ReplaceOne(c, '\'', "&apos;");
          }
        }
      }
    }
  }

  // Each entity holds no target of the replace calls made after the one
  // that introduced it, so those calls leave it as it is.

  lemma AmpKept()
    ensures Replace("&amp;", '<', "&lt;") == "&amp;" && Replace("&amp;", '>', "&gt;") == "&amp;"
    ensures Replace("&amp;", '"', "&quot;") == "&amp;" && Replace("&amp;", '\'', "&apos;") == "&amp;"
  {
    assert '<' !in "&amp;" && '>' !in "&amp;" && '"' !in "&amp;" && '\'' !in "&amp;";
  }

  lemma LtKept()
    ensures Replace("&lt;", '>', "&gt;") == "&lt;"
    ensures Replace("&lt;", '"', "&quot;") == "&lt;" && Replace("&lt;", '\'', "&apos;") == "&lt;"
  {
    assert '>' !in "&lt;" && '"' !in "&lt;" && '\'' !in "&lt;";
  }

  lemma GtKept()
    ensures Replace("&gt;", '"', "&quot;") == "&gt;" && Replace("&gt;", '\'', "&apos;") == "&gt;"
  {
    assert '"' !in "&gt;" && '\'' !in "&gt;";
  }

  lemma QuotKept()
    ensures Replace("&quot;", '\'', "&apos;") == "&quot;"
  {
    assert '\'' !in "&quot;";
  }

  /** The chain of replace calls escapes each character on its own. */
  lemma {:induction false} ChainIsEach(s: string)
    ensures ReplaceChain(s) == EscapeEach(s)
  {
    if s != [] {
      assert s == [s[0]] + s[1..];
      ChainConcat([s[0]], s[1..]);
      ChainOne(s[0]);
      ChainIsEach(s[1..]);
    }
  }

  lemma {:induction false} EscapeEachSafe(s: string)
    ensures '<' !in EscapeEach(s) && '>' !in EscapeEach(s) && '"' !in EscapeEach(s) && '\'' !in EscapeEach(s)
  {
    if s != [] {
      EscapeEachSafe(s[1..]);
      EntitySafe(s[0]);
    }
  }

  lemma EntitySafe(c: char)
    ensures '<' !in Entity(c) && '>' !in Entity(c) && '"' !in Entity(c) && '\'' !in Entity(c)
  {
    if c == '&' {
      assert Entity(c) == "&amp;";
    } else if c == '<' {
      assert Entity(c) == "&lt;";
    } else if c == '>' {
      assert Entity(c) == "&gt;";
    } else if c == '"' {
      assert Entity(c) == "&quot;";
    } else if c == '\'' {
      assert Entity(c) == "&apos;";
    }
  }

  /** Decoding after an escaped character gives that character first. */
  lemma DecodeAfterEntity(c: char, t: string)
    ensures DecodeXml(Entity(c) + t) == Prepend(c, DecodeXml(t))
  {
    if c == '&' {
      DecodeEntity("&amp;", t);
    } else if c == '<' {
      DiffersAt("&lt;" + t, "&amp;", 1);
      DecodeEntity("&lt;", t);
    } else if c == '>' {
      DiffersAt("&gt;" + t, "&amp;", 1);
      DiffersAt("&gt;" + t, "&lt;", 1);
      DecodeEntity("&gt;", t);
    } else if c == '"' {
      DiffersAt("&quot;" + t, "&amp;", 1);
      DiffersAt("&quot;" + t, "&lt;", 1);
      DiffersAt("&quot;" + t, "&gt;", 1);
      DecodeEntity("&quot;", t);
    } else if c == '\'' {
      DiffersAt("&apos;" + t, "&amp;", 2);
      DiffersAt("&apos;" + t, "&lt;", 1);
      DiffersAt("&apos;" + t, "&gt;", 1);
      DiffersAt("&apos;" + t, "&quot;", 1);
      DecodeEntity("&apos;", t);
    } else {
      var s := [c] + t;
      assert s[0] == c && s[1..] == t;
    }
  }

  /** An entity followed by more text: the text starts with the entity, and
      what follows it is the rest. */
  lemma DecodeEntity(e: string, t: string)
    requires |e| >= 1
    ensures (e + t)[0] == e[0] && StartsWith(e + t, e) && (e + t)[|e|..] == t
  {
    SplitAt(e, t);
  }

  /** Decoding the entities recovers the input of the escaping. */
  lemma {:induction false} XmlRoundTrip(s: string)
    ensures DecodeXml(EscapeEach(s)) == Some(s)
  {
    if s != [] {
      DecodeAfterEntity(s[0], EscapeEach(s[1..]));
      XmlRoundTrip(s[1..]);
      assert [s[0]] + s[1..] == s;
    }
  }

  // ---------------------------------------------------------------- document

  const Declaration := "<?xml version=\"1.0\" encoding=\"UTF-8\"?>"
  /** What each <movimiento> element's first line starts with. */
  const ElementOpen := "    <movimiento tipo=\""

  /** Everything before the first movement: the declaration, the root, the
      owner block and the opening of <movimientos>. */
  function Head(owner: Client): seq<string> {
    HeadLines(EscapeXml(Some(owner.name)), EscapeXml(Some(owner.dni)), NatToDecimal(owner.age))
  }

  function HeadLines(name: string, dni: string, age: string): seq<string> {
    [ Declaration,
      "<cuenta>",
      "  <titular>",
      "    <nombre>" + (name + "</nombre>"),
      "    <dni>" + (dni + "</dni>"),
      "    <edad>" + (age + "</edad>"),
      "  </titular>",
      "  <movimientos>" ]
  }

  /** The element for one movement: its type as an attribute, its amount and
      its timestamp as children. */
  function Element(m: Movement): seq<string> {
    ElementLines(KindName(m.kind), FormatCents(m.amount), FormatDateTime(m.at))
  }

  function ElementLines(kind: string, amount: string, at: string): seq<string> {
    [ ElementOpen + (kind + "\">"),
      "      <cantidad>" + (amount + "</cantidad>"),
      "      <fechaHora>" + (at + "</fechaHora>"),
      "    </movimiento>" ]
  }

  /** The elements of the movements, in ledger order. */
  function Elements(ms: seq<Movement>): seq<string> {
    Flatten(ms, Element)
  }

  const Tail: seq<string> := ["  </movimientos>", "</cuenta>"]

  /** The lines exportar writes for an account. */
  function Document(owner: Client, ms: seq<Movement>): seq<string> {
    Head(owner) + Elements(ms) + Tail
  }

  /** The document is the eight head lines, then one four-line element per
      movement in ledger order, then the two closing tags. */
  lemma DocumentShape(owner: Client, ms: seq<Movement>)
    ensures |Document(owner, ms)| == 10 + 4 * |ms|
    ensures Document(owner, ms)[..8] == Head(owner)
    ensures forall i | 0 <= i < |ms| :: Document(owner, ms)[8 + 4 * i .. 12 + 4 * i] == Element(ms[i])
    ensures Document(owner, ms)[8 + 4 * |ms|..] == Tail
  {
    forall i | 0 <= i < |ms|
      ensures |Element(ms[i])| == 4
    {
      ElementSize(ms[i]);
    }
    FlattenShape(ms, Element, 4);
    HeadSize(owner);
    Framed(Head(owner), Elements(ms), Tail);
  }

  lemma ElementSize(m: Movement)
    ensures |Element(m)| == 4
  {
  }

  lemma HeadSize(owner: Client)
    ensures |Head(owner)| == 8
  {
  }

  predicate OpensElement(line: string) {
    StartsWith(line, ElementOpen)
  }

  lemma ElementCount(m: Movement)
    ensures Count(Element(m), OpensElement) == 1
  {
    ElementLinesCount(KindName(m.kind), FormatCents(m.amount), FormatDateTime(m.at));
  }

  lemma ElementLinesCount(kind: string, amount: string, at: string)
    ensures Count(ElementLines(kind, amount, at), OpensElement) == 1
  {
    var e := ElementLines(kind, amount, at);
    SplitAt(ElementOpen, kind + "\">");
    assert OpensElement(e[0]);
    DiffersAt(e[1], ElementOpen, 4);
    DiffersAt(e[2], ElementOpen, 4);
    DiffersAt(e[3], ElementOpen, 5);
    assert Count(e[..1], OpensElement) == 1 by { assert e[..1][..0] == []; }
    assert Count(e[..2], OpensElement) == 1 by { assert e[..2][..1] == e[..1]; }
    assert Count(e[..3], OpensElement) == 1 by { assert e[..3][..2] == e[..2]; }
    assert e[..4] == e;
  }

  lemma HeadCount(name: string, dni: string, age: string)
    ensures Count(HeadLines(name, dni, age), OpensElement) == 0
  {
    var h := HeadLines(name, dni, age);
    DiffersAt(h[0], ElementOpen, 0);
    DiffersAt(h[1], ElementOpen, 0);
    DiffersAt(h[2], ElementOpen, 2);
    DiffersAt(h[3], ElementOpen, 5);
    DiffersAt(h[4], ElementOpen, 5);
    DiffersAt(h[5], ElementOpen, 5);
    DiffersAt(h[6], ElementOpen, 2);
    DiffersAt(h[7], ElementOpen, 2);
    CountNone(h, OpensElement);
  }

  /** Exactly one <movimiento> element is opened per movement of the ledger. */
  lemma OneElementPerMovement(owner: Client, ms: seq<Movement>)
    ensures Count(Document(owner, ms), OpensElement) == |ms|
  {
    HeadCount(EscapeXml(Some(owner.name)), EscapeXml(Some(owner.dni)), NatToDecimal(owner.age));
    forall i | 0 <= i < |ms|
      ensures Count(Element(ms[i]), OpensElement) == 1
    {
      ElementCount(ms[i]);
    }
    FlattenCount(ms, Element, OpensElement);
    CountNone(Tail, OpensElement);
    FramedCount(Head(owner), Elements(ms), Tail, OpensElement);
  }

  /** The owner's name and DNI can be read back from their lines of the
      head (lines 3 and 4 of the document, by DocumentShape). */
  lemma OwnerReadable(owner: Client)
    ensures Unwrap(Head(owner)[3], "    <nombre>", "</nombre>") == Some(EscapeXml(Some(owner.name)))
    ensures DecodeXml(EscapeXml(Some(owner.name))) == Some(owner.name)
    ensures Unwrap(Head(owner)[4], "    <dni>", "</dni>") == Some(EscapeXml(Some(owner.dni)))
    ensures DecodeXml(EscapeXml(Some(owner.dni))) == Some(owner.dni)
  {
    HeadFields(EscapeXml(Some(owner.name)), EscapeXml(Some(owner.dni)), NatToDecimal(owner.age));
    FieldReadable("    <nombre>", owner.name, "</nombre>");
    FieldReadable("    <dni>", owner.dni, "</dni>");
  }

  lemma HeadFields(name: string, dni: string, age: string)
    ensures HeadLines(name, dni, age)[3] == "    <nombre>" + (name + "</nombre>")
    ensures HeadLines(name, dni, age)[4] == "    <dni>" + (dni + "</dni>")
  {
  }

  lemma FieldReadable(prefix: string, s: string, suffix: string)
    ensures Unwrap(prefix + (EscapeXml(Some(s)) + suffix), prefix, suffix) == Some(EscapeXml(Some(s)))
    ensures DecodeXml(EscapeXml(Some(s))) == Some(s)
  {
    UnwrapWrap(prefix, EscapeXml(Some(s)), suffix);
    EscapeXmlRoundTrip(s);
  }

  // ------------------------------------------------------------------ export

  /** The writes exportar makes once its checks pass: the head, one element
      per movement of the for-each loop, and the closing tags. */
  method Write(owner: Client, movimientos: seq<Movement>) returns (lines: seq<string>)
    ensures lines == Document(owner, movimientos)
  {
    var head := Head(owner);
    lines := head;
    assert Elements(movimientos[..0]) == [];
    assert lines == head + Elements(movimientos[..0]);
    for i := 0 to |movimientos|
      invariant lines == head + Elements(movimientos[..i])
    {
      FlattenSnoc(movimientos, Element, i);
      AppendAssoc(head, Elements(movimientos[..i]), Element(movimientos[i]));
      lines := lines + Element(movimientos[i]);
    }
    assert movimientos[..|movimientos|] == movimientos;
    lines := lines + Tail;
  }

  /** exportar: refuses a null account or a null or blank base name;
      otherwise writes Document(owner, movements) to
      exportaciones_banco/<base>.xml, one movement element per loop turn. */
  method Export(cuenta: Account?, nombreArchivo: Option<string>) returns (r: Option<ExportFile>)
    ensures r.None? <==> Rejected(cuenta, nombreArchivo)
    ensures r.Some? ==>
      cuenta != null && nombreArchivo.Some?
      && r.value == ExportFile(TargetPath(nombreArchivo.value, ".xml"), Document(cuenta.owner, cuenta.movements))
  {
    if cuenta == null {
      return None;
    }
    if nombreArchivo.None? || IsBlank(nombreArchivo.value) {
      return None;
    }
    var path := TargetPath(nombreArchivo.value, ".xml");
    var lines := Write(cuenta.owner, cuenta.Movements());
    return Some(ExportFile(path, lines));
  }
}
