/**
 * One ledger entry (class Movimiento): an immutable record of a deposit or
 * a withdrawal, its amount and the moment it was made; plus the two text
 * renderings every exporter uses for it, String.format("%.2f", amount) and
 * the pattern yyyy-MM-dd HH:mm:ss. Amounts are integer cents. The clock
 * (LocalDateTime.now()) is a parameter.
 */
module Movements {
  import opened Wrappers
  import opened JavaStrings

  /** Movimiento.Tipo: INGRESO (a deposit) and RETIRADA (a withdrawal). */
  datatype Kind = Ingreso | Retirada

  /** The enum constant's name, as the exporters print it. */
  function KindName(k: Kind): (r: string)
    ensures r == "INGRESO" <==> k == Ingreso
    ensures r == "RETIRADA" <==> k == Retirada
  {
    match k
    case Ingreso => "INGRESO"
    case Retirada => "RETIRADA"
  }

  /** The label Movimiento.toString shows: "Ingreso" for a deposit and
      "Retirada" for anything else. */
  function Label(k: Kind): (r: string)
    ensures r == "Ingreso" <==> k == Ingreso
    ensures r == "Retirada" <==> k != Ingreso
  {
    if k == Ingreso then "Ingreso" else "Retirada"
  }

  // ---------------------------------------------------------------- moments

  /** A LocalDateTime to the second. */
  datatype DateTime = DateTime(year: nat, month: nat, day: nat, hour: nat, minute: nat, second: nat)

  predicate ValidDateTime(t: DateTime) {
    && 1 <= t.year <= 9999 && 1 <= t.month <= 12 && 1 <= t.day <= 31
    && t.hour < 24 && t.minute < 60 && t.second < 60
  }

  /** The year of era the pattern letter 'y' prints: proleptic year 0 is
      year 1 before the common era. */
  function YearOfEra(y: nat): (e: nat)
    ensures e >= 1 && (y >= 1 ==> e == y)
  {
    if y == 0 then 1 else y
  }

  /** "yyyy": the year of era in at least four digits; one beyond 9999
      carries a '+' sign. */
  function YearText(y: nat): string {
    var e := YearOfEra(y);
    if e > 9999 then "+" + NatToDecimal(e) else PadZeros(NatToDecimal(e), 4)
  }

  /** "MM", "dd", "HH", "mm", "ss": at least two digits. */
  function TwoDigits(n: nat): string {
    PadZeros(NatToDecimal(n), 2)
  }

  predicate IsTimestampChar(c: char) {
    IsDigit(c) || c == '-' || c == ' ' || c == ':' || c == '+'
  }

  lemma {:induction false} DigitsAreTimestampChars(s: string)
    requires All(s, IsDigit)
    ensures All(s, IsTimestampChar)
  {
    if s != [] {
      DigitsAreTimestampChars(s[..|s| - 1]);
    }
  }

  /** DateTimeFormatter.ofPattern("yyyy-MM-dd HH:mm:ss").format(t). */
  function FormatDateTime(t: DateTime): string {
    YearText(t.year) + ("-" + (TwoDigits(t.month) + ("-" + (TwoDigits(t.day) + (" " + (TwoDigits(t.hour)
      + (":" + (TwoDigits(t.minute) + (":" + TwoDigits(t.second))))))))))
  }

  /** A timestamp is only digits, the three separators and possibly a year
      sign, so it needs no escaping in CSV, XML or JSON and never contains
      the CSV separator. */
  lemma {:induction false} TimestampChars(t: DateTime)
    ensures All(FormatDateTime(t), IsTimestampChar)
  {
    assert All(YearText(t.year), IsTimestampChar) by {
      var e := YearOfEra(t.year);
      PaddedDigits(e, 4);
      if e > 9999 {
        DecimalDigits(e);
        AllOne('+', IsTimestampChar);
        AllConcat("+", NatToDecimal(e), IsTimestampChar);
      }
    }
    PaddedDigits(t.month, 2);
    PaddedDigits(t.day, 2);
    PaddedDigits(t.hour, 2);
    PaddedDigits(t.minute, 2);
    PaddedDigits(t.second, 2);
    LayoutChars(YearText(t.year), TwoDigits(t.month), TwoDigits(t.day),
                TwoDigits(t.hour), TwoDigits(t.minute), TwoDigits(t.second));
  }

  lemma DecimalDigits(n: nat)
    ensures All(NatToDecimal(n), IsTimestampChar)
  {
    DecimalDigitsOnly(n);
    DigitsAreTimestampChars(NatToDecimal(n));
  }

  lemma LayoutChars(y: string, mo: string, d: string, h: string, mi: string, se: string)
    requires All(y, IsTimestampChar) && All(mo, IsTimestampChar) && All(d, IsTimestampChar)
    requires All(h, IsTimestampChar) && All(mi, IsTimestampChar) && All(se, IsTimestampChar)
    ensures All(y + ("-" + (mo + ("-" + (d + (" " + (h + (":" + (mi + (":" + se))))))))), IsTimestampChar)
  {
    AllOne(':', IsTimestampChar);
    AllOne(' ', IsTimestampChar);
    AllOne('-', IsTimestampChar);
    var r9 := ":" + se;
    AllConcat(":", se, IsTimestampChar);
    var r8 := mi + r9;
    AllConcat(mi, r9, IsTimestampChar);
    var r7 := ":" + r8;
    AllConcat(":", r8, IsTimestampChar);
    var r6 := h + r7;
    AllConcat(h, r7, IsTimestampChar);
    var r5 := " " + r6;
    AllConcat(" ", r6, IsTimestampChar);
    var r4 := d + r5;
    AllConcat(d, r5, IsTimestampChar);
    var r3 := "-" + r4;
    AllConcat("-", r4, IsTimestampChar);
    var r2 := mo + r3;
    AllConcat(mo, r3, IsTimestampChar);
    var r1 := "-" + r2;
    AllConcat("-", r2, IsTimestampChar);
    AllConcat(y, r1, IsTimestampChar);
  }

  lemma PaddedDigits(n: nat, w: nat)
    ensures All(PadZeros(NatToDecimal(n), w), IsDigit)
    ensures All(PadZeros(NatToDecimal(n), w), IsTimestampChar)
  {
    DecimalDigitsOnly(n);
    ParseLeadingZeros(NatToDecimal(n), w);
    DigitsAreTimestampChars(PadZeros(NatToDecimal(n), w));
  }

  /** The reader's side of FormatDateTime, for texts of the four-digit-year
      shape. */
  function ParseDateTime(s: string): Option<DateTime> {
    if |s| == 19 && s[4] == '-' && s[7] == '-' && s[10] == ' ' && s[13] == ':' && s[16] == ':'
       && All(s[0..4], IsDigit) && All(s[5..7], IsDigit) && All(s[8..10], IsDigit)
       && All(s[11..13], IsDigit) && All(s[14..16], IsDigit) && All(s[17..19], IsDigit)
    then Some(DateTime(ParseDecimal(s[0..4]), ParseDecimal(s[5..7]), ParseDecimal(s[8..10]),
                       ParseDecimal(s[11..13]), ParseDecimal(s[14..16]), ParseDecimal(s[17..19])))
    else None
  }

  /** Padding a value to a width it fits in gives exactly that width, and the
      digits read back as the value. */
  lemma PaddedField(n: nat, w: nat)
    requires 1 <= w && n < Pow10(w)
    ensures |PadZeros(NatToDecimal(n), w)| == w
    ensures All(PadZeros(NatToDecimal(n), w), IsDigit)
    ensures ParseDecimal(PadZeros(NatToDecimal(n), w)) == n
  {
    DecimalWidth(n, w);
    DecimalDigitsOnly(n);
    ParseLeadingZeros(NatToDecimal(n), w);
    DecimalRoundTrip(n);
  }

  /** Where each field sits in a text laid out as yyyy-MM-dd HH:mm:ss. */
  lemma DateTimeLayout(y: string, mo: string, d: string, h: string, mi: string, se: string)
    requires |y| == 4 && |mo| == 2 && |d| == 2 && |h| == 2 && |mi| == 2 && |se| == 2
    ensures var s := y + ("-" + (mo + ("-" + (d + (" " + (h + (":" + (mi + (":" + se)))))))));
      && |s| == 19 && s[0..4] == y && s[4] == '-' && s[5..7] == mo && s[7] == '-'
      && s[8..10] == d && s[10] == ' ' && s[11..13] == h && s[13] == ':'
      && s[14..16] == mi && s[16] == ':' && s[17..19] == se
  {
    var s := y + ("-" + (mo + ("-" + (d + (" " + (h + (":" + (mi + (":" + se)))))))));
    assert s[5..7] == mo by { assert forall i | 0 <= i < 2 :: s[5 + i] == mo[i]; }
    assert s[8..10] == d by { assert forall i | 0 <= i < 2 :: s[8 + i] == d[i]; }
    assert s[11..13] == h by { assert forall i | 0 <= i < 2 :: s[11 + i] == h[i]; }
    assert s[14..16] == mi by { assert forall i | 0 <= i < 2 :: s[14 + i] == mi[i]; }
    assert s[17..19] == se by { assert forall i | 0 <= i < 2 :: s[17 + i] == se[i]; }
  }

  /** A valid moment is written in exactly 19 characters and reads back as
      itself: the timestamp column of every export identifies the moment. */
  lemma DateTimeRoundTrip(t: DateTime)
    requires ValidDateTime(t)
    ensures |FormatDateTime(t)| == 19
    ensures ParseDateTime(FormatDateTime(t)) == Some(t)
  {
    assert Pow10(2) == 100 && Pow10(4) == 10000;
    PaddedField(t.year, 4);
    PaddedField(t.month, 2);
    PaddedField(t.day, 2);
    PaddedField(t.hour, 2);
    PaddedField(t.minute, 2);
    PaddedField(t.second, 2);
    DateTimeLayout(YearText(t.year), TwoDigits(t.month), TwoDigits(t.day),
                   TwoDigits(t.hour), TwoDigits(t.minute), TwoDigits(t.second));
  }

  // ---------------------------------------------------------------- amounts

  predicate IsAmountChar(c: char) {
    IsDigit(c) || c == '.'
  }

  lemma {:induction false} DigitsAreAmountChars(s: string)
    requires All(s, IsDigit)
    ensures All(s, IsAmountChar)
  {
    if s != [] {
      DigitsAreAmountChars(s[..|s| - 1]);
    }
  }

  /** String.format("%.2f", amount) for an amount of c cents, with '.' as the
      decimal separator: the whole part, a point, and two digits. */
  function FormatCents(c: nat): string {
    NatToDecimal(c / 100) + ("." + TwoDigits(c % 100))
  }

  /** An amount is digits around one decimal point, three places from the end. */
  lemma AmountChars(c: nat)
    ensures |FormatCents(c)| >= 4 && FormatCents(c)[|FormatCents(c)| - 3] == '.'
    ensures All(FormatCents(c), IsAmountChar)
  {
    FractionDigits(c % 100);
    DecimalDigitsOnly(c / 100);
    CentsChars(NatToDecimal(c / 100), TwoDigits(c % 100));
    CentsPoint(NatToDecimal(c / 100), TwoDigits(c % 100));
  }

  lemma FractionDigits(frac: nat)
    requires frac < 100
    ensures |TwoDigits(frac)| == 2 && All(TwoDigits(frac), IsDigit)
    ensures ParseDecimal(TwoDigits(frac)) == frac
  {
    assert Pow10(2) == 100;
    PaddedField(frac, 2);
  }

  lemma CentsChars(w: string, f: string)
    requires All(w, IsDigit) && All(f, IsDigit)
    ensures All(w + ("." + f), IsAmountChar)
  {
    DigitsAreAmountChars(w);
    DigitsAreAmountChars(f);
    AllOne('.', IsAmountChar);
    AllConcat(".", f, IsAmountChar);
    AllConcat(w, "." + f, IsAmountChar);
  }

  lemma CentsPoint(w: string, f: string)
    requires |f| == 2
    ensures var s := w + ("." + f); |s| == |w| + 3 && s[|s| - 3] == '.'
  {
  }

  lemma CentsSlices(w: string, f: string)
    requires |f| == 2
    ensures var s := w + ("." + f); |s| == |w| + 3 && s[..|s| - 3] == w && s[|s| - 2..] == f
  {
    SplitAt(w, "." + f);
    SplitAt(".", f);
  }

  /** The reader's side of FormatCents. */
  function ParseCents(s: string): Option<nat> {
    if |s| >= 4 && s[|s| - 3] == '.' && All(s[..|s| - 3], IsDigit) && All(s[|s| - 2..], IsDigit)
    then Some(ParseDecimal(s[..|s| - 3]) * 100 + ParseDecimal(s[|s| - 2..]))
    else None
  }

  /** Every amount column reads back as the exact amount. */
  lemma {:induction false} CentsRoundTrip(c: nat)
    ensures ParseCents(FormatCents(c)) == Some(c)
  {
    var whole, frac := c / 100, c % 100;
    FractionDigits(frac);
    DecimalRoundTrip(whole);
    ParseCentsText(NatToDecimal(whole), TwoDigits(frac));
    assert whole * 100 + frac == c;
  }

  lemma ParseCentsText(w: string, f: string)
    requires |w| >= 1 && |f| == 2 && All(w, IsDigit) && All(f, IsDigit)
    ensures ParseCents(w + ("." + f)) == Some(ParseDecimal(w) * 100 + ParseDecimal(f))
  {
    var s := w + ("." + f);
    CentsPoint(w, f);
    CentsSlices(w, f);
  }

  // -------------------------------------------------------------- movements

  /** The three final fields of a Movimiento; the getters return them. */
  datatype Movement = Movement(kind: Kind, amount: nat, at: DateTime)

  /** new Movimiento(tipo, cantidad), made at the moment now: the type is
      kept, the amount is Math.max(0, cantidad) (the least non-negative value
      not below cantidad) and the moment is fixed here. */
  function NewMovement(kind: Kind, cantidad: int, now: DateTime): (m: Movement)
    ensures m.kind == kind && m.at == now
    ensures m.amount >= cantidad && (m.amount == cantidad || m.amount == 0)
  {
    Movement(kind, if cantidad < 0 then 0 else cantidad, now)
  }

  /** Movimiento.toString. */
  function Text(m: Movement): string {
    TextLine(FormatDateTime(m.at), Label(m.kind), FormatCents(m.amount))
  }

  function TextLine(at: string, name: string, amount: string): string {
    "[" + at + "] " + name + " -> " + amount + " €"
  }

  /** The name sits between the bracketed timestamp and the arrow, so the
      kind of a movement can be read back from its text. */
  lemma TextLabel(m: Movement)
    ensures var t := Text(m);
            && |FormatDateTime(m.at)| + 3 <= |t| - |FormatCents(m.amount)| - 6
            && t[|FormatDateTime(m.at)| + 3 .. |t| - |FormatCents(m.amount)| - 6] == Label(m.kind)
            && (t[|FormatDateTime(m.at)| + 3 .. |t| - |FormatCents(m.amount)| - 6] == "Ingreso" <==> m.kind == Ingreso)
  {
    TextLineLabel(FormatDateTime(m.at), Label(m.kind), FormatCents(m.amount));
  }

  lemma TextLineLabel(at: string, name: string, amount: string)
    ensures var t := TextLine(at, name, amount);
            |t| == |at| + |name| + |amount| + 9 && t[|at| + 3 .. |t| - |amount| - 6] == name
  {
    var prefix, suffix := "[" + at + "] ", " -> " + amount + " €";
    var t := TextLine(at, name, amount);
    assert t == prefix + (name + suffix);
    SplitAt(prefix, name + suffix);
    SplitAt(name, suffix);
    assert t[|prefix|..|t| - |suffix|] == (name + suffix)[..|name|];
  }
}
