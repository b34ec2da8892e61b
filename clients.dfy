/**
 * The account holder (class Cliente): a name, a national identity number
 * (DNI) and an age, normalised once by the constructor and never changed.
 * A Java null argument is modelled as None.
 */
module Clients {
  import opened Wrappers
  import opened JavaStrings

  /** Stored in place of a missing or blank name. */
  const NoName := "Sin nombre"
  /** Stored in place of a missing or blank DNI. */
  const NoDni := "00000000X"

  /** The three final fields; the getters getNombre, getDni and getEdad
      return them unchanged. */
  datatype Client = Client(name: string, dni: string, age: nat)

  /** No character String.trim would remove at either end. */
  predicate Trimmed(s: string) {
    s == [] || (!IsTrimmable(s[0]) && !IsTrimmable(s[|s| - 1]))
  }

  /** No white space (Character.isWhitespace) at either end. */
  predicate Stripped(s: string) {
    s == [] || (!IsWhitespace(s[0]) && !IsWhitespace(s[|s| - 1]))
  }

  /** Math.max(0, edad), characterised as the least non-negative value not
      below edad. */
  function ClampAge(edad: int): (age: nat)
    ensures age >= edad && (age == edad || age == 0)
  {
    if edad < 0 then 0 else edad
  }

  // ------------------------------------------------------------ as written

  /** One text field of the constructor as written: null or blank gives the
      fallback, anything else is trimmed. */
  function NormalizeTrim(field: Option<string>, fallback: string): string {
    if field.None? || IsBlank(field.value) then fallback else Trim(field.value)
  }

  /** new Cliente(nombre, dni, edad), as written. */
  function NewClient(nombre: Option<string>, dni: Option<string>, edad: int): (c: Client)
    ensures nombre.None? || IsBlank(nombre.value) ==> c.name == NoName
    ensures dni.None? || IsBlank(dni.value) ==> c.dni == NoDni
    ensures nombre.Some? && !IsBlank(nombre.value) ==> c.name == Trim(nombre.value)
    ensures dni.Some? && !IsBlank(dni.value) ==> c.dni == Trim(dni.value)
    ensures c.age >= edad && (c.age == edad || c.age == 0)
    ensures Trimmed(c.name) && Trimmed(c.dni)
  {
    Client(NormalizeTrim(nombre, NoName), NormalizeTrim(dni, NoDni), ClampAge(edad))
  }

  /** The blank test and the trim disagree: a name made only of a control
      character that is not white space (U+0001) passes the blank test, and
      trimming then leaves it empty. Building a second client from the
      first one's getters then gives a different name. */
  lemma ControlCharNameIsEmpty()
    ensures NewClient(Some("\U{1}"), Some("12345678A"), 30).name == []
    ensures NewClient(Some([]), Some("12345678A"), 30).name == NoName
  {
    var s := "\U{1}";
    assert s[0] == '\U{1}' && !IsWhitespace(s[0]);
    assert !IsBlank(s);
    assert LeadingRun(s, IsTrimmable) == 1;
  }

  /** Normalising the getters' values again changes nothing, as long as
      trimming did not leave a blank text behind (see ControlCharNameIsEmpty
      for an input where it does). */
  lemma {:induction false} NewClientStableWhenTrimNotBlank(nombre: Option<string>, dni: Option<string>, edad: int)
    requires nombre.None? || IsBlank(nombre.value) || !IsBlank(Trim(nombre.value))
    requires dni.None? || IsBlank(dni.value) || !IsBlank(Trim(dni.value))
    ensures var c := NewClient(nombre, dni, edad);
            NewClient(Some(c.name), Some(c.dni), c.age) == c
  {
    FieldStable(nombre, NoName);
    FieldStable(dni, NoDni);
  }

  lemma FieldStable(field: Option<string>, fallback: string)
    requires fallback == NoName || fallback == NoDni
    requires field.None? || IsBlank(field.value) || !IsBlank(Trim(field.value))
    ensures NormalizeTrim(Some(NormalizeTrim(field, fallback)), fallback) == NormalizeTrim(field, fallback)
  {
    var v := NormalizeTrim(field, fallback);
    if v == fallback {
      FallbackIsNormal(fallback);
    } else {
      SpanIdempotent(field.value, IsTrimmable);
    }
  }

  /** The two sentinels are neither blank nor changed by trim or strip. */
  lemma FallbackIsNormal(fallback: string)
    requires fallback == NoName || fallback == NoDni
    ensures !IsBlank(fallback) && Trim(fallback) == fallback && Strip(fallback) == fallback
  {
    if fallback == NoName {
      assert fallback[0] == 'S' && fallback[|fallback| - 1] == 'e';
    } else {
      assert fallback[0] == '0' && fallback[|fallback| - 1] == 'X';
    }
    SpanStable(fallback, IsTrimmable);
    SpanStable(fallback, IsWhitespace);
  }

  // -------------------------------------------------------------- corrected

  /** One text field with the blank test and the trimming agreeing on what
      white space is: String.strip in place of String.trim. */
  function NormalizeStrip(field: Option<string>, fallback: string): (r: string)
    requires fallback == NoName || fallback == NoDni
    ensures r != [] && !IsBlank(r) && Stripped(r)
    ensures field.None? || IsBlank(field.value) ==> r == fallback
    ensures field.Some? && !IsBlank(field.value) ==> r == Strip(field.value)
  {
    FallbackIsNormal(fallback);
    if field.None? || IsBlank(field.value) then fallback else Strip(field.value)
  }

  /** The constructor with strip in place of trim: the stored name and DNI
      are never empty, never blank and carry no white space at either end. */
  function NewClientStripped(nombre: Option<string>, dni: Option<string>, edad: int): (c: Client)
    ensures c.name != [] && !IsBlank(c.name) && Stripped(c.name)
    ensures c.dni != [] && !IsBlank(c.dni) && Stripped(c.dni)
    ensures nombre.None? || IsBlank(nombre.value) ==> c.name == NoName
    ensures dni.None? || IsBlank(dni.value) ==> c.dni == NoDni
    ensures c.age >= edad && (c.age == edad || c.age == 0)
  {
    Client(NormalizeStrip(nombre, NoName), NormalizeStrip(dni, NoDni), ClampAge(edad))
  }

  /** With strip, normalisation is idempotent for every input: a client built
      from another client's getters has the same fields. */
  lemma {:induction false} NewClientStrippedIdempotent(nombre: Option<string>, dni: Option<string>, edad: int)
    ensures var c := NewClientStripped(nombre, dni, edad);
            NewClientStripped(Some(c.name), Some(c.dni), c.age) == c
  {
    var c := NewClientStripped(nombre, dni, edad);
    StripStable(c.name);
    StripStable(c.dni);
  }

  /** A stripped, non-blank text is its own normal form. */
  lemma StripStable(s: string)
    requires s != [] && Stripped(s)
    ensures !IsBlank(s) && Strip(s) == s
  {
    SpanStable(s, IsWhitespace);
  }
}
