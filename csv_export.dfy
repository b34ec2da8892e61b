/**
 * ExportadorCSV.exportar: a header and then one ';'-separated row per
 * movement, in ledger order. Fields are not quoted, and no owner data is
 * written.
 */
module CsvExport {
  import opened Wrappers
  import opened JavaStrings
  import opened Movements
  import opened Accounts
  import opened Exports

  /** The column separator (SEPARADOR). */
  const Sep := ';'

  /** The first line of every CSV export. */
  const Header := "Tipo;Cantidad;FechaHora"

  /** One row: the enum name, the amount with two decimals and the timestamp. */
  function Row(m: Movement): string {
    KindName(m.kind) + ([Sep] + (FormatCents(m.amount) + ([Sep] + FormatDateTime(m.at))))
  }

  /** The reader's side: a line cut at every ';'. */
  function Fields(s: string): (r: seq<string>)
    ensures |r| >= 1
  {
    if s == [] then [[]]
    else
      var rest := Fields(s[1..]);
      if s[0] == Sep then [[]] + rest else [[s[0]] + rest[0]] + rest[1..]
  }

  lemma {:induction false} FieldsWithoutSep(a: string)
    requires Sep !in a
    ensures Fields(a) == [a]
  {
    if a != [] {
      assert a[0] != Sep && a == [a[0]] + a[1..];
      FieldsWithoutSep(a[1..]);
    }
  }

  lemma {:induction false} FieldsAtSep(a: string, b: string)
    requires Sep !in a
    ensures Fields(a + ([Sep] + b)) == [a] + Fields(b)
  {
    if a == [] {
      assert a + ([Sep] + b) == [Sep] + b;
      assert ([Sep] + b)[1..] == b;
    } else {
      var s := a + ([Sep] + b);
      assert s[0] == a[0] != Sep;
      assert s[1..] == a[1..] + ([Sep] + b);
      FieldsAtSep(a[1..], b);
      assert Fields(s) == [[a[0]] + a[1..]] + Fields(b);
      assert [a[0]] + a[1..] == a;
    }
  }

  lemma ThreeFields(a: string, b: string, c: string)
    requires Sep !in a && Sep !in b && Sep !in c
    ensures Fields(a + ([Sep] + (b + ([Sep] + c)))) == [a, b, c]
  {
    FieldsAtSep(a, b + ([Sep] + c));
    FieldsAtSep(b, c);
    FieldsWithoutSep(c);
  }

  /** A row reads back as exactly three fields: the type, the amount and the
      timestamp, because none of them contains the separator. */
  lemma RowFields(m: Movement)
    ensures Fields(Row(m)) == [KindName(m.kind), FormatCents(m.amount), FormatDateTime(m.at)]
  {
    SepNotInColumns(m);
    ThreeFields(KindName(m.kind), FormatCents(m.amount), FormatDateTime(m.at));
  }

  lemma SepNotInColumns(m: Movement)
    ensures Sep !in KindName(m.kind) && Sep !in FormatCents(m.amount) && Sep !in FormatDateTime(m.at)
  {
    SepNotInKind(m.kind);
    SepNotInAmount(m.amount);
    SepNotInTimestamp(m.at);
  }

  lemma SepNotInKind(k: Kind)
    ensures Sep !in KindName(k)
  {
    match k
    case Ingreso => assert KindName(k) == "INGRESO";
    case Retirada => assert KindName(k) == "RETIRADA";
  }

  lemma SepNotInAmount(c: nat)
    ensures Sep !in FormatCents(c)
  {
    AmountChars(c);
    assert !IsAmountChar(Sep);
    NotIn(FormatCents(c), IsAmountChar, Sep);
  }

  lemma SepNotInTimestamp(t: DateTime)
    ensures Sep !in FormatDateTime(t)
  {
    TimestampChars(t);
    assert !IsTimestampChar(Sep);
    NotIn(FormatDateTime(t), IsTimestampChar, Sep);
  }

  /** The header names the three columns. */
  lemma HeaderFields()
    ensures Fields(Header) == ["Tipo", "Cantidad", "FechaHora"]
  {
    assert Header == "Tipo" + ([Sep] + ("Cantidad" + ([Sep] + "FechaHora")));
    ThreeFields("Tipo", "Cantidad", "FechaHora");
  }

  /** The lines exportar writes: the header, then one row per movement. The
      owner is not an argument: no owner data is written. */
  function Document(ms: seq<Movement>): seq<string> {
    [Header] + Lines(ms, Row)
  }

  /** The header first, then |ms| rows, row i rendering movement i. */
  lemma DocumentShape(ms: seq<Movement>)
    ensures |Document(ms)| == |ms| + 1
    ensures Document(ms)[0] == Header
    ensures forall i | 0 <= i < |ms| :: Document(ms)[i + 1] == Row(ms[i])
  {
    LinesShape(ms, Row);
  }

  /** The writes exportar makes once its checks pass: the header, then one
      row per turn of the for-each loop. */
  method Write(movimientos: seq<Movement>) returns (lines: seq<string>)
    ensures lines == Document(movimientos)
  {
    lines := [Header];
    assert Lines(movimientos[..0], Row) == [];
    for i := 0 to |movimientos|
      invariant lines == [Header] + Lines(movimientos[..i], Row)
    {
      LinesSnoc(movimientos, Row, i);
      AppendAssoc([Header], Lines(movimientos[..i], Row), [Row(movimientos[i])]);
      lines := lines + [Row(movimientos[i])];
    }
    assert movimientos[..|movimientos|] == movimientos;
  }

  /** exportar: refuses a null account or a null or blank base name;
      otherwise writes Document(movements) to exportaciones_banco/<base>.csv. */
  method Export(cuenta: Account?, nombreArchivo: Option<string>) returns (r: Option<ExportFile>)
    ensures r.None? <==> Rejected(cuenta, nombreArchivo)
    ensures r.Some? ==>
      cuenta != null && nombreArchivo.Some?
      && r.value == ExportFile(TargetPath(nombreArchivo.value, ".csv"), Document(cuenta.movements))
  {
    if cuenta == null {
      return None;
    }
    if nombreArchivo.None? || IsBlank(nombreArchivo.value) {
      return None;
    }
    var path := TargetPath(nombreArchivo.value, ".csv");
    var lines := Write(cuenta.Movements());
    return Some(ExportFile(path, lines));
  }
}
