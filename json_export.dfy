/**
 * ExportadorJSON: the escaping of string values (escaparJSON) and the
 * object exportar writes: the owner under "titular", then the array
 * "movimientos" with one object per movement in ledger order, a comma after
 * every object but the last. Each write of the source ends in "\n"; a line
 * here is one write without that terminator.
 */
module JsonExport {
  import opened Wrappers
  import opened JavaStrings
  import opened Clients
  import opened Movements
  import opened Accounts
  import opened Exports

  // ---------------------------------------------------------------- escaping

  /** The three replace calls of escaparJSON, in the order they are made. */
  function ReplaceChain(s: string): string {
    Replace(Replace(Replace(s, '\\', "\\\\"), '"', "\\\""), '\n', "\\n")
  }

  /** What the chain does to a single character. */
  function Escape(c: char): string {
    if c == '\\' then "\\\\"
    else if c == '"' then "\\\""
    else if c == '\n' then "\\n"
    else [c]
  }

  /** Each character escaped independently. */
  function EscapeEach(s: string): string {
    if s == [] then [] else Escape(s[0]) + EscapeEach(s[1..])
  }

  /** The reader's side, as a JSON parser reads the inside of a string: the
      three escapes are decoded; a raw quote or line feed, or a backslash
      followed by anything else, is an error. */
  function DecodeJson(s: string): Option<string>
    decreases |s|
  {
    if s == [] then Some([])
    else if s[0] == '\\' then
      if |s| < 2 then None
      else if s[1] == '\\' then Prepend('\\', DecodeJson(s[2..]))
      else if s[1] == '"' then Prepend('"', DecodeJson(s[2..]))
      else if s[1] == 'n' then Prepend('\n', DecodeJson(s[2..]))
      else None
    else if s[0] == '"' || s[0] == '\n' then None
    else Prepend(s[0], DecodeJson(s[1..]))
  }

  /** escaparJSON: null gives the empty text; otherwise no raw line feed is
      left, and every quote is preceded by a backslash. */
  function EscapeJson(texto: Option<string>): (r: string)
    ensures texto.None? ==> r == []
    ensures '\n' !in r
    ensures forall i | 0 <= i < |r| && r[i] == '"' :: 0 < i && r[i - 1] == '\\'
  {
    match texto
    case None => []
    case Some(s) =>
      ChainIsEach(s);
      EscapeEachSafe(s);
      ReplaceChain(s)
  }

  /** Decoding the three escapes gives back the text escaparJSON was given,
      because the backslash is replaced before any escape is introduced. */
  lemma EscapeJsonRoundTrip(s: string)
    ensures DecodeJson(EscapeJson(Some(s))) == Some(s)
  {
    ChainIsEach(s);
    JsonRoundTrip(s);
  }

  lemma ChainConcat(a: string, b: string)
    ensures ReplaceChain(a + b) == ReplaceChain(a) + ReplaceChain(b)
  {
    var a1, b1 := Replace(a, '\\', "\\\\"), Replace(b, '\\', "\\\\");
    ReplaceConcat(a, b, '\\', "\\\\");
    var a2, b2 := Replace(a1, '"', "\\\""), Replace(b1, '"', "\\\"");
    ReplaceConcat(a1, b1, '"', "\\\"");
    ReplaceConcat(a2, b2, '\n', "\\n");
  }

  lemma ChainOne(c: char)
    ensures ReplaceChain([c]) == Escape(c)
  {
    ReplaceOne(c, '\\', "\\\\");
    if c == '\\' {
      assert '"' !in "\\\\" && '\n' !in "\\\\";
    } else {
      ReplaceOne(c, '"', "\\\"");
      if c == '"' {
        assert '\n' !in "\\\"";
      } else {
        ReplaceOne(c, '\n', "\\n");
      }
    }
  }

  /** The chain of replace calls escapes each character on its own. */
  lemma {:induction false} ChainIsEach(s: string)
    ensures ReplaceChain(s) == EscapeEach(s)
  {
    if s != [] {
      assert s == [s[0]] + s[1..];
      ChainConcat([s[0]], s[1..]);
      ChainOne(s[0]);
      ChainIsEach(s[1..]);
    }
  }

  lemma {:induction false} EscapeEachSafe(s: string)
    ensures '\n' !in EscapeEach(s)
    ensures var r := EscapeEach(s); forall i | 0 <= i < |r| && r[i] == '"' :: 0 < i && r[i - 1] == '\\'
  {
    if s != [] {
      EscapeEachSafe(s[1..]);
      var e, t := Escape(s[0]), EscapeEach(s[1..]);
      var r := e + t;
      forall i | 0 <= i < |r| && r[i] == '"'
        ensures 0 < i && r[i - 1] == '\\'
      {
        if i < |e| {
          assert e == "\\\"" && i == 1;
        } else {
          assert r[i] == t[i - |e|];
          if i - |e| == 0 {
            assert false;
          }
        }
      }
    }
  }

  /** Decoding after an escaped character gives that character first. */
  lemma DecodeAfterEscape(c: char, t: string)
    ensures DecodeJson(Escape(c) + t) == Prepend(c, DecodeJson(t))
  {
    var s := Escape(c) + t;
    SplitAt(Escape(c), t);
    if c == '\\' || c == '"' || c == '\n' {
      assert |Escape(c)| == 2 && s[0] == '\\';
    } else {
      assert s[0] == c && s[1..] == t;
    }
  }

  /** Decoding the escapes recovers the input of the escaping. */
  lemma {:induction false} JsonRoundTrip(s: string)
    ensures DecodeJson(EscapeEach(s)) == Some(s)
  {
    if s != [] {
      DecodeAfterEscape(s[0], EscapeEach(s[1..]));
      JsonRoundTrip(s[1..]);
      assert [s[0]] + s[1..] == s;
    }
  }

  // ---------------------------------------------------------------- document

  /** The line that opens every movement object. */
  const ObjectOpen := "    {"

  /** Everything before the first movement: the opening brace, the owner
      object and the opening of the array. */
  function Head(owner: Client): seq<string> {
    HeadLines(EscapeJson(Some(owner.name)), EscapeJson(Some(owner.dni)), NatToDecimal(owner.age))
  }

  function HeadLines(name: string, dni: string, age: string): seq<string> {
    [ "{",
      "  \"titular\": {",
      "    \"nombre\": \"" + (name + "\","),
      "    \"dni\": \"" + (dni + "\","),
      "    \"edad\": " + age,
      "  },",
      "  \"movimientos\": [" ]
  }

  /** The object for one movement; more says whether another object follows
      it, in which case its closing brace carries a comma. */
  function Object(m: Movement, more: bool): seq<string> {
    ObjectLines(KindName(m.kind), FormatCents(m.amount), FormatDateTime(m.at), more)
  }

  function ObjectLines(kind: string, amount: string, at: string, more: bool): seq<string> {
    [ ObjectOpen,
      "      \"tipo\": \"" + (kind + "\","),
      "      \"cantidad\": " + (amount + ","),
      "      \"fechaHora\": \"" + (at + "\""),
      "    }" + (if more then "," else "") ]
  }

  /** Each movement paired with whether it is followed by another: the test
      i < movimientos.size() - 1 of the indexed loop. */
  function Tagged(ms: seq<Movement>): (r: seq<(Movement, bool)>)
    ensures |r| == |ms|
    ensures forall i | 0 <= i < |ms| :: r[i] == (ms[i], i < |ms| - 1)
  {
    seq(|ms|, i requires 0 <= i < |ms| => (ms[i], i < |ms| - 1))
  }

  function ObjectOf(p: (Movement, bool)): seq<string> {
    Object(p.0, p.1)
  }

  /** The objects of the movements, in ledger order. */
  function Objects(ms: seq<Movement>): seq<string> {
    Flatten(Tagged(ms), ObjectOf)
  }

  const Tail: seq<string> := ["  ]", "}"]

  /** The lines exportar writes for an account. */
  function Document(owner: Client, ms: seq<Movement>): seq<string> {
    Head(owner) + Objects(ms) + Tail
  }

  lemma HeadSize(owner: Client)
    ensures |Head(owner)| == 7
  {
  }

  lemma ObjectSize(p: (Movement, bool))
    ensures |ObjectOf(p)| == 5
  {
  }

  /** The document is the seven head lines, then one five-line object per
      movement in ledger order (with a comma after all but the last), then
      the closing of the array and of the outer object. */
  lemma DocumentShape(owner: Client, ms: seq<Movement>)
    ensures |Document(owner, ms)| == 9 + 5 * |ms|
    ensures Document(owner, ms)[..7] == Head(owner)
    ensures forall i | 0 <= i < |ms| ::
      Document(owner, ms)[7 + 5 * i .. 12 + 5 * i] == Object(ms[i], i < |ms| - 1)
    ensures Document(owner, ms)[7 + 5 * |ms|..] == Tail
  {
    var tagged := Tagged(ms);
    forall i | 0 <= i < |tagged|
      ensures |ObjectOf(tagged[i])| == 5
    {
      ObjectSize(tagged[i]);
    }
    FlattenShape(tagged, ObjectOf, 5);
    HeadSize(owner);
    Framed(Head(owner), Objects(ms), Tail);
  }

  /** Comma placement: the closing brace of object i is followed by a comma
      exactly when another object comes after it, so the line before the
      closing bracket of the array never ends in a comma. */
  lemma CommaPlacement(owner: Client, ms: seq<Movement>)
    ensures |Document(owner, ms)| == 9 + 5 * |ms|
    ensures forall i | 0 <= i < |ms| ::
      Document(owner, ms)[11 + 5 * i] == if i < |ms| - 1 then "    }," else "    }"
    ensures |ms| > 0 ==> Document(owner, ms)[|Document(owner, ms)| - 3] == "    }"
    ensures |ms| == 0 ==> Document(owner, ms)[|Document(owner, ms)| - 3] == "  \"movimientos\": ["
  {
    DocumentShape(owner, ms);
    var d := Document(owner, ms);
    forall i | 0 <= i < |ms|
      ensures d[11 + 5 * i] == if i < |ms| - 1 then "    }," else "    }"
    {
      var block := d[7 + 5 * i .. 12 + 5 * i];
      assert d[11 + 5 * i] == block[4];
      ObjectClose(ms[i], i < |ms| - 1);
    }
    if |ms| == 0 {
      assert d[6] == d[..7][6];
      HeadLast(owner);
    }
  }

  lemma ObjectClose(m: Movement, more: bool)
    ensures Object(m, more)[4] == if more then "    }," else "    }"
  {
  }

  lemma HeadLast(owner: Client)
    ensures |Head(owner)| == 7 && Head(owner)[6] == "  \"movimientos\": ["
  {
  }

  predicate OpensObject(line: string) {
    line == ObjectOpen
  }

  lemma ObjectCount(p: (Movement, bool))
    ensures Count(ObjectOf(p), OpensObject) == 1
  {
    ObjectLinesCount(KindName(p.0.kind), FormatCents(p.0.amount), FormatDateTime(p.0.at), p.1);
  }

  lemma ObjectLinesCount(kind: string, amount: string, at: string, more: bool)
    ensures Count(ObjectLines(kind, amount, at, more), OpensObject) == 1
  {
    var o := ObjectLines(kind, amount, at, more);
    assert OpensObject(o[0]);
    assert !OpensObject(o[1]) by { assert o[1][4] != ObjectOpen[4]; }
    assert !OpensObject(o[2]) by { assert o[2][4] != ObjectOpen[4]; }
    assert !OpensObject(o[3]) by { assert o[3][4] != ObjectOpen[4]; }
    assert !OpensObject(o[4]) by { assert o[4][4] != ObjectOpen[4]; }
    assert Count(o[..1], OpensObject) == 1 by { assert o[..1][..0] == []; }
    assert Count(o[..2], OpensObject) == 1 by { assert o[..2][..1] == o[..1]; }
    assert Count(o[..3], OpensObject) == 1 by { assert o[..3][..2] == o[..2]; }
    assert Count(o[..4], OpensObject) == 1 by { assert o[..4][..3] == o[..3]; }
    assert o[..5] == o;
  }

  lemma HeadCount(name: string, dni: string, age: string)
    ensures Count(HeadLines(name, dni, age), OpensObject) == 0
  {
    var h := HeadLines(name, dni, age);
    assert !OpensObject(h[2]) by { assert h[2][4] != ObjectOpen[4]; }
    assert !OpensObject(h[3]) by { assert h[3][4] != ObjectOpen[4]; }
    assert !OpensObject(h[4]) by { assert h[4][4] != ObjectOpen[4]; }
    assert !OpensObject(h[0]) && !OpensObject(h[1]) && !OpensObject(h[5]) && !OpensObject(h[6]);
    CountNone(h, OpensObject);
  }

  /** Exactly one object is opened per movement of the ledger. */
  lemma OneObjectPerMovement(owner: Client, ms: seq<Movement>)
    ensures Count(Document(owner, ms), OpensObject) == |ms|
  {
    HeadCount(EscapeJson(Some(owner.name)), EscapeJson(Some(owner.dni)), NatToDecimal(owner.age));
    var tagged := Tagged(ms);
    forall i | 0 <= i < |tagged|
      ensures Count(ObjectOf(tagged[i]), OpensObject) == 1
    {
      ObjectCount(tagged[i]);
    }
    FlattenCount(tagged, ObjectOf, OpensObject);
    CountNone(Tail, OpensObject);
    FramedCount(Head(owner), Objects(ms), Tail, OpensObject);
  }

  /** The owner's name and DNI can be read back from their lines of the
      head (lines 2 and 3 of the document, by DocumentShape). */
  lemma OwnerReadable(owner: Client)
    ensures Unwrap(Head(owner)[2], "    \"nombre\": \"", "\",") == Some(EscapeJson(Some(owner.name)))
    ensures DecodeJson(EscapeJson(Some(owner.name))) == Some(owner.name)
    ensures Unwrap(Head(owner)[3], "    \"dni\": \"", "\",") == Some(EscapeJson(Some(owner.dni)))
    ensures DecodeJson(EscapeJson(Some(owner.dni))) == Some(owner.dni)
  {
    HeadFields(EscapeJson(Some(owner.name)), EscapeJson(Some(owner.dni)), NatToDecimal(owner.age));
    FieldReadable("    \"nombre\": \"", owner.name, "\",");
    FieldReadable("    \"dni\": \"", owner.dni, "\",");
  }

  lemma HeadFields(name: string, dni: string, age: string)
    ensures HeadLines(name, dni, age)[2] == "    \"nombre\": \"" + (name + "\",")
    ensures HeadLines(name, dni, age)[3] == "    \"dni\": \"" + (dni + "\",")
  {
  }

  lemma FieldReadable(prefix: string, s: string, suffix: string)
    ensures Unwrap(prefix + (EscapeJson(Some(s)) + suffix), prefix, suffix) == Some(EscapeJson(Some(s)))
    ensures DecodeJson(EscapeJson(Some(s))) == Some(s)
  {
    UnwrapWrap(prefix, EscapeJson(Some(s)), suffix);
    EscapeJsonRoundTrip(s);
  }

  // ------------------------------------------------------------------ export

  /** The writes exportar makes once its checks pass: the head, one object
      per turn of the indexed loop, and the closing lines. */
  method Write(owner: Client, movimientos: seq<Movement>) returns (lines: seq<string>)
    ensures lines == Document(owner, movimientos)
  {
    var head := Head(owner);
    var tagged := Tagged(movimientos);
    lines := head;
    assert Flatten(tagged[..0], ObjectOf) == [];
    assert lines == head + Flatten(tagged[..0], ObjectOf);
    for i := 0 to |movimientos|
      invariant lines == head + Flatten(tagged[..i], ObjectOf)
    {
      FlattenSnoc(tagged, ObjectOf, i);
      AppendAssoc(head, Flatten(tagged[..i], ObjectOf), ObjectOf(tagged[i]));
      lines := lines + Object(movimientos[i], i < |movimientos| - 1);
    }
    assert tagged[..|movimientos|] == tagged;
    lines := lines + Tail;
  }

  /** exportar: refuses a null account or a null or blank base name;
      otherwise writes Document(owner, movements) to
      exportaciones_banco/<base>.json. */
  method Export(cuenta: Account?, nombreArchivo: Option<string>) returns (r: Option<ExportFile>)
    ensures r.None? <==> Rejected(cuenta, nombreArchivo)
    ensures r.Some? ==>
      cuenta != null && nombreArchivo.Some?
      && r.value == ExportFile(TargetPath(nombreArchivo.value, ".json"), Document(cuenta.owner, cuenta.movements))
  {
    if cuenta == null {
      return None;
    }
    if nombreArchivo.None? || IsBlank(nombreArchivo.value) {
      return None;
    }
    var path := TargetPath(nombreArchivo.value, ".json");
    var lines := Write(cuenta.owner, cuenta.Movements());
    return Some(ExportFile(path, lines));
  }
}
