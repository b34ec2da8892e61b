# Bank ledger and exporters (RAPracticar), in Dafny

This project models the core of the RAPracticar exercise. That core is a single-account bank ledger and three text exporters.

- **Cuenta** is an account. It has an owner fixed at opening and an append-only list of movements.
  - `ingresar` deposits. It ignores a non-positive amount.
  - `retirar` withdraws. It refuses a non-positive amount or one above the balance, and answers whether it withdrew.
  - `getSaldo` recomputes the balance from the list every time.
- **Movimiento** is an immutable record: the kind (`INGRESO` or `RETIRADA`), an amount clamped at 0, and the moment it was made.
- **Cliente** is the owner. The name and DNI are normalised: null or blank becomes a sentinel, anything else is trimmed. The age is clamped at 0.
- **ExportadorCSV, ExportadorXML, ExportadorJSON** each refuse a null account or a blank base name. Otherwise they write the account to `exportaciones_banco/<base>.<ext>`.
  - CSV is `;`-separated with a header row.
  - XML and JSON also write the owner, with the name and DNI escaped by `escaparXML` / `escaparJSON`.

The modules follow the program's classes:

| file | module | models |
|---|---|---|
| `wrappers.dfy` | `Wrappers` | `Option`, used for Java `null` |
| `java_strings.dfy` | `JavaStrings` | `Character.isWhitespace`, `isBlank`, `trim`, `strip`, one-character `replace`, `Integer.toString` |
| `clients.dfy` | `Clients` | `Cliente`, as written and corrected (see Findings) |
| `movements.dfy` | `Movements` | `Movimiento`, `"%.2f"` and `yyyy-MM-dd HH:mm:ss` |
| `accounts.dfy` | `Accounts` | `Cuenta`, as a class over a `seq<Movement>` |
| `exports.dfy` | `Exports` | what the exporters share: the guard, the target path, line bodies |
| `csv_export.dfy`, `xml_export.dfy`, `json_export.dfy` | `CsvExport`, `XmlExport`, `JsonExport` | the three `exportar` methods and the two escape functions |

Modelling choices:

- **Amounts** are integer cents.
- **The clock** (`LocalDateTime.now()`) is a `DateTime` parameter.
- **Null** is modelled as `Option`.
- **An export** is an `ExportFile`: the target path and the lines written, in order. `Export` returns `None` exactly when `exportar` returns false at its argument guard.
- **The loops.** Each exporter's loop is a `Write` method whose `for` loop builds the lines. It is proved equal to a `Document` function, and the lemmas about the document's shape are stated about that function.
- **The two copies.** `RaExamen` and `RaExamenAntes` contain behaviourally identical `Cuenta` and `Movimiento` classes, and one model covers both. The table cites the `RaExamen` copy. The corresponding lines of the earlier copy are:
  - `RaExamenAntes/src/Cuenta.java`: constructor 16-19, `getMovimientos` 25-27, `getSaldo` 29-38, `ingresar` 40-43, `retirar` 45-50.
  - `RaExamenAntes/src/Movimiento.java`: constructor 21-25, the `toString` label 42.

## Model

| member | source | states |
|---|---|---|
| Accounts.Account.constructor | RAPracticar/RaExamen/src/Cuenta.java:25-28 | a new account keeps the given owner, has no movements and satisfies the account invariant |
| Accounts.Account.Movements | RAPracticar/RaExamen/src/Cuenta.java:40-42 | getMovimientos gives the movements in insertion order; the result is a value, so callers cannot modify the account through it |
| Accounts.Account.GetBalance | RAPracticar/RaExamen/src/Cuenta.java:49-56 | the accumulator loop returns Balance of the movement list (deposits added, withdrawals subtracted, in order), which is never negative in a valid account |
| Accounts.BalanceIsDepositsMinusWithdrawals | RAPracticar/RaExamen/src/Cuenta.java:49-56 | the balance equals the sum of INGRESO amounts minus the sum of RETIRADA amounts |
| Accounts.DepositsOnlyBalance | RAPracticar/RaExamen/src/Cuenta.java:49-56 | with deposits only, the balance is the sum of the deposits and nothing is withdrawn |
| Accounts.Account.Deposit | RAPracticar/RaExamen/src/Cuenta.java:63-66 | a non-positive amount changes nothing; a positive one appends exactly one INGRESO of that amount at the end, keeps earlier movements, raises the balance by it and keeps the invariant |
| Accounts.Account.Withdraw | RAPracticar/RaExamen/src/Cuenta.java:74-79 | answers true exactly when 0 < amount <= balance (so the whole balance may be withdrawn); then appends one RETIRADA of that amount and lowers the balance by it; otherwise changes nothing; keeps the invariant |
| Accounts.AppendKeepsNeverOverdrawn | RAPracticar/RaExamen/src/Cuenta.java:63-79 | appending a movement that leaves the balance non-negative keeps every prefix of the history non-negative, so any sequence of deposits and withdrawals from a new account never overdraws it |
| Movements.NewMovement | RAPracticar/RaExamen/src/Movimiento.java:33-37 | the kind is kept, the moment is fixed at construction, and the amount is max(0, cantidad): never negative, and equal to the input when the input is not negative |
| Movements.Label | RAPracticar/RaExamen/src/Movimiento.java:51 | the toString label is "Ingreso" exactly for INGRESO and "Retirada" for everything else |
| Movements.TextLabel | RAPracticar/RaExamen/src/Movimiento.java:49-53 | in toString the label sits between "[timestamp] " and " -> amount €", so the kind can be read back from the text |
| Movements.KindName | RAPracticar/RaExamen/src/ExportadorCSV.java:52 | the enum name written by the exporters is "INGRESO" exactly for a deposit and "RETIRADA" exactly for a withdrawal |
| Movements.YearOfEra | RAPracticar/RaExamen/src/ExportadorCSV.java:41 | the year the pattern letter y prints is at least 1 and is the year itself for years from 1 on |
| Movements.DateTimeRoundTrip | RAPracticar/RaExamen/src/ExportadorCSV.java:41 | a valid moment formatted with yyyy-MM-dd HH:mm:ss is 19 characters long and parses back to the same moment |
| Movements.TimestampChars | RAPracticar/RaExamen/src/ExportadorCSV.java:54 | a formatted timestamp holds only digits, '-', ' ', ':' and a possible year sign |
| Movements.AmountChars | RAPracticar/RaExamen/src/ExportadorCSV.java:53 | "%.2f" of an amount is digits with one point three places from the end |
| Movements.CentsRoundTrip | RAPracticar/RaExamen/src/ExportadorCSV.java:53 | "%.2f" of an amount parses back to the exact amount in cents |
| Clients.ClampAge | RAPracticar/RaExamenAntes/src/Cliente.java:18 | the stored age is the least non-negative value not below edad: edad itself, or 0 |
| Clients.NewClient | RAPracticar/RaExamenAntes/src/Cliente.java:15-19 | a null or blank name becomes "Sin nombre" and a null or blank DNI "00000000X"; otherwise each is the input trimmed; the age is max(0, edad); the stored texts have nothing trim would remove at either end |
| Clients.FallbackIsNormal | RAPracticar/RaExamenAntes/src/Cliente.java:16-17 | the two sentinels are not blank and are left unchanged by trim and strip |
| Clients.FieldStable | RAPracticar/RaExamenAntes/src/Cliente.java:16-17 | normalising a stored field again changes nothing, unless trimming left a blank text |
| Clients.NewClientStableWhenTrimNotBlank | RAPracticar/RaExamenAntes/src/Cliente.java:15-31 | a client rebuilt from another client's getters has the same fields, for every input whose trimmed name and DNI are not blank |
| Clients.ControlCharNameIsEmpty | RAPracticar/RaExamenAntes/src/Cliente.java:16 | as written, the name "\u0001" passes the blank test and is stored as the empty text, while an empty name is stored as "Sin nombre" |
| Clients.NormalizeStrip | RAPracticar/RaExamenAntes/src/Cliente.java:16-17 | corrected field normalisation: the sentinel for null or blank, otherwise the stripped input, and never empty, blank or padded with white space |
| Clients.NewClientStripped | RAPracticar/RaExamenAntes/src/Cliente.java:15-19 | the corrected constructor: name and DNI are never empty, never blank and have no white space at either end; sentinels and age as in the original |
| Clients.NewClientStrippedIdempotent | RAPracticar/RaExamenAntes/src/Cliente.java:15-31 | with the correction, a client rebuilt from another client's getters has the same fields, for every input |
| Clients.StripStable | RAPracticar/RaExamenAntes/src/Cliente.java:16-17 | a non-empty text with no white space at either end is not blank and is its own strip |
| JavaStrings.SpanShape | RAPracticar/RaExamenAntes/src/Cliente.java:16-17 | trim and strip remove only characters of their class, keep a text that starts and ends outside the class, and give the empty text exactly when every character is in the class |
| JavaStrings.SpanIdempotent | RAPracticar/RaExamenAntes/src/Cliente.java:16-17 | trimming or stripping twice is the same as once |
| JavaStrings.SpanStable | RAPracticar/RaExamenAntes/src/Cliente.java:16-17 | a text that starts and ends outside the removed class is left whole |
| JavaStrings.BlankIffStripEmpty | RAPracticar/RaExamenAntes/src/Cliente.java:16-17 | isBlank holds exactly when strip gives the empty text |
| JavaStrings.Replace | RAPracticar/RaExamen/src/ExportadorXML.java:97-101 | replace leaves a text with no occurrence of the target unchanged |
| JavaStrings.ReplaceConcat | RAPracticar/RaExamen/src/ExportadorXML.java:97-101 | replacing in a concatenation is replacing in each part |
| JavaStrings.DecimalRoundTrip | RAPracticar/RaExamen/src/ExportadorXML.java:55 | the age written with Integer.toString is decimal digits only and reads back as the age |
| JavaStrings.DecimalNoLeadingZero | RAPracticar/RaExamen/src/ExportadorXML.java:55 | Integer.toString of a non-negative value starts with '0' only for 0 itself |
| Exports.TargetPath | RAPracticar/RaExamen/src/ExportadorCSV.java:38 | the path is the export directory, a separator, the base name as given and the extension, and each part can be sliced back out |
| CsvExport.HeaderFields | RAPracticar/RaExamen/src/ExportadorCSV.java:45 | the header reads as the three columns Tipo, Cantidad, FechaHora |
| CsvExport.SepNotInColumns | RAPracticar/RaExamen/src/ExportadorCSV.java:51-55 | no column value of a row (kind, amount, timestamp) contains ';' |
| CsvExport.RowFields | RAPracticar/RaExamen/src/ExportadorCSV.java:51-55 | each row splits at ';' into exactly the enum name, the amount and the timestamp of its movement |
| CsvExport.DocumentShape | RAPracticar/RaExamen/src/ExportadorCSV.java:45-57 | the output has |movements| + 1 lines: the header first, then row i rendering movement i, in ledger order; nothing else, so no owner data |
| CsvExport.Write | RAPracticar/RaExamen/src/ExportadorCSV.java:43-57 | the header write and the for-each loop produce exactly the CSV document of the movements |
| CsvExport.Export | RAPracticar/RaExamen/src/ExportadorCSV.java:22-38 | answers None (false) exactly for a null account or a null or blank base name; otherwise the CSV document at exportaciones_banco/<base>.csv |
| XmlExport.EscapeXml | RAPracticar/RaExamen/src/ExportadorXML.java:95-102 | escaparXML(null) is the empty text, and the escaped text contains no raw <, >, " or ' |
| XmlExport.ChainIsEach | RAPracticar/RaExamen/src/ExportadorXML.java:97-101 | the five chained replace calls, in the source's order, equal replacing each character by its entity independently |
| XmlExport.XmlRoundTrip | RAPracticar/RaExamen/src/ExportadorXML.java:97-101 | decoding the five entities of section 4.6 of XML 1.0 recovers the text, and the decoder accepts the escaped text, so every '&' starts an entity |
| XmlExport.EscapeXmlRoundTrip | RAPracticar/RaExamen/src/ExportadorXML.java:97-101 | decoding escaparXML's output gives back its input, because '&' is replaced first |
| XmlExport.DocumentShape | RAPracticar/RaExamen/src/ExportadorXML.java:43-79 | the document is the declaration, <cuenta>, the <titular> block and <movimientos> (8 lines), then one 4-line element per movement in ledger order, then </movimientos> and </cuenta> |
| XmlExport.OneElementPerMovement | RAPracticar/RaExamen/src/ExportadorXML.java:63-73 | exactly one line opens a <movimiento> element per movement of the ledger |
| XmlExport.OwnerReadable | RAPracticar/RaExamen/src/ExportadorXML.java:51-54 | the <nombre> and <dni> lines hold the escaped owner fields, which decode back to the owner's name and DNI |
| XmlExport.Write | RAPracticar/RaExamen/src/ExportadorXML.java:43-79 | the writes before, in and after the for-each loop produce exactly the XML document of the owner and movements |
| XmlExport.Export | RAPracticar/RaExamen/src/ExportadorXML.java:22-37 | answers None (false) exactly for a null account or a null or blank base name; otherwise the XML document at exportaciones_banco/<base>.xml |
| JsonExport.EscapeJson | RAPracticar/RaExamen/src/ExportadorJSON.java:80-85 | escaparJSON(null) is the empty text; the escaped text has no raw line feed, and every quote in it is preceded by a backslash |
| JsonExport.ChainIsEach | RAPracticar/RaExamen/src/ExportadorJSON.java:82-84 | the three chained replace calls, in the source's order, equal escaping each character independently |
| JsonExport.JsonRoundTrip | RAPracticar/RaExamen/src/ExportadorJSON.java:82-84 | decoding \\, \" and \n from left to right recovers the text |
| JsonExport.EscapeJsonRoundTrip | RAPracticar/RaExamen/src/ExportadorJSON.java:82-84 | decoding escaparJSON's output gives back its input, because the backslash is replaced first |
| JsonExport.DocumentShape | RAPracticar/RaExamen/src/ExportadorJSON.java:43-64 | the document is "{", the titular object and the array opening (7 lines), then one 5-line object per movement in ledger order, then "  ]" and "}" |
| JsonExport.CommaPlacement | RAPracticar/RaExamen/src/ExportadorJSON.java:61 | the closing brace of object i carries a comma exactly when i is not the last; the line before the array's close never ends in a comma |
| JsonExport.OneObjectPerMovement | RAPracticar/RaExamen/src/ExportadorJSON.java:54-62 | exactly one line opens a movement object per movement of the ledger |
| JsonExport.OwnerReadable | RAPracticar/RaExamen/src/ExportadorJSON.java:47-48 | the nombre and dni lines hold the escaped owner fields, which decode back to the owner's name and DNI |
| JsonExport.Write | RAPracticar/RaExamen/src/ExportadorJSON.java:43-64 | the writes before, in and after the indexed loop produce exactly the JSON document of the owner and movements |
| JsonExport.Export | RAPracticar/RaExamen/src/ExportadorJSON.java:21-37 | answers None (false) exactly for a null account or a null or blank base name; otherwise the JSON document at exportaciones_banco/<base>.json |

## Left out

- `AppBanco` (both copies) is not part of this model. It covers the console menu, input retry loops, format selection, and saving and loading the account through Java object serialization.
- File system work is not modelled: creating the directory, opening the `FileWriter`, and the `IOException` branch that makes `exportar` answer false after the guard. An export is its path and its lines, and the console messages are not modelled.
- Amounts are exact integer cents rather than `double`, so rounding drift of the running balance is not modelled. A Java caller could pass a fraction of a cent, which cannot be represented here.
- Accounts.Account.Withdraw, Accounts.Account.Deposit: non-finite amounts (Infinity, NaN) are not modelled. In the source they break the balance check. The console accepts "Infinity" as a positive amount (RAPracticar/RaExamen/src/AppBanco.java:164-165), so `ingresar` can record an infinite deposit. A later `retirar(Infinity)` passes the check `getSaldo() < cantidad`, because Infinity < Infinity is false, and the balance becomes NaN. From then on every positive `retirar` answers true, because NaN < c is false. A direct `retirar(NaN)` also answers true. So in the source `retirar` can accept withdrawals beyond the balance.
- `String.format("%.2f", …)` is modelled for a locale whose decimal separator is '.'. In a locale such as Spanish it writes ','. The rounding of a `double` to two places does not arise with cents.
- `File.separator` is taken to be "/".
- Movements.FormatDateTime models the pattern for non-negative proleptic years (`year` is a `nat`). Negative years, which the era-based pattern would print without a sign, are not modelled.
- `Cuenta.getMovimientos` returns a read-only live view. The model returns a snapshot: the sequence at the time of the call.
- A `Cuenta` built with a null `titular` is not modelled. The owner is always a `Client`.
- `Cuenta.toString` and `Cliente.toString` (display only) are not modelled.
- JsonExport.EscapeJson: only the three escapes of the source are modelled. Other control characters are written raw, which section 7 of RFC 8259 does not allow.
- XmlExport.Document: a line is one or more writes followed by `newLine()`. A name or DNI containing a line feed is one model line even though it spans several physical lines. JsonExport.Document lines are the writes without their trailing "\n".
- XmlExport.Write, JsonExport.Write, CsvExport.Write: the loop of `exportar` is a method of its own, called by `Export` after the guard.
- XmlExport.OwnerReadable, JsonExport.OwnerReadable: stated on the head lines. DocumentShape places the head at the start of the document.

## Findings

| source | as written | input that shows it | evidently intended | confidence | as-written member | corrected member |
|---|---|---|---|---|---|---|
| RAPracticar/RaExamenAntes/src/Cliente.java:16-17 | the blank test (`isBlank`, Unicode white space) and the cleanup (`trim`, every code point up to U+0020) disagree: a name or DNI made only of control characters that are not white space is not blank, and trimming leaves it empty | nombre = "\u0001" gives the stored name "" (while "" gives "Sin nombre"), and rebuilding a client from its getters then changes the name | stored name and DNI never empty and normalisation idempotent, as with `strip()` in place of `trim()` | medium, not executed | Clients.ControlCharNameIsEmpty | Clients.NewClientStripped |
