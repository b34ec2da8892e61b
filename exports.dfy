/**
 * What the three exporters (ExportadorCSV, ExportadorXML, ExportadorJSON)
 * share: the argument check made before anything touches the filesystem,
 * the export directory and the way the target path is built. The file
 * system itself is not modelled: an export is the path and the sequence of
 * lines written to it.
 */
module Exports {
  import opened Wrappers
  import opened JavaStrings
  import opened Accounts

  /** The export directory (DIRECTORIO). */
  const Directory := "exportaciones_banco"
  /** File.separator, as on a Unix system. */
  const Separator := "/"

  /** One export: the target path and the lines written, in order; each line
      is one or more writes followed by a line terminator. */
  datatype ExportFile = ExportFile(path: string, lines: seq<string>)

  /** The check each exportar makes first: a null account, or a null or blank
      base name, makes it answer false before any directory or file is
      touched. */
  predicate Rejected(cuenta: Account?, nombreArchivo: Option<string>) {
    cuenta == null || nombreArchivo.None? || IsBlank(nombreArchivo.value)
  }

  /** DIRECTORIO + File.separator + nombreArchivo + extension: the base name
      (used as given, not trimmed) can be read back from the path. */
  function TargetPath(base: string, extension: string): (p: string)
    ensures |p| == |Directory| + 1 + |base| + |extension|
    ensures p[..|Directory| + 1] == Directory + Separator
    ensures p[|Directory| + 1 .. |p| - |extension|] == base
    ensures p[|p| - |extension|..] == extension
  {
    var p := Directory + (Separator + (base + extension));
    SplitAt(Directory, Separator + (base + extension));
    SplitAt(Separator, base + extension);
    SplitAt(base, extension);
    assert p[|Directory| + 1 .. |p| - |extension|] == (base + extension)[..|base|];
    p
  }

  /** The text between a fixed prefix and a fixed suffix of a line, if the line
      has both: how a reader takes a value back out of a rendered line. */
  function Unwrap(line: string, prefix: string, suffix: string): Option<string> {
    if |prefix| + |suffix| <= |line| && line[..|prefix|] == prefix && line[|line| - |suffix|..] == suffix
    then Some(line[|prefix|..|line| - |suffix|])
    else None
  }

  lemma UnwrapWrap(prefix: string, value: string, suffix: string)
    ensures Unwrap(prefix + (value + suffix), prefix, suffix) == Some(value)
  {
    var line := prefix + (value + suffix);
    SplitAt(prefix, value + suffix);
    SplitAt(value, suffix);
    assert line[|line| - |suffix|..] == (value + suffix)[|value|..];
    assert line[|prefix|..|line| - |suffix|] == (value + suffix)[..|value|];
  }

  /** The blocks of lines render gives for each movement, concatenated in
      ledger order: the body of the XML and JSON documents. */
  function Flatten<T>(items: seq<T>, render: T -> seq<string>): seq<string> {
    if items == [] then [] else Flatten(items[..|items| - 1], render) + render(items[|items| - 1])
  }

  /** One line per item, in order: the body of the CSV export. */
  function Lines<T>(items: seq<T>, render: T -> string): seq<string> {
    if items == [] then [] else Lines(items[..|items| - 1], render) + [render(items[|items| - 1])]
  }

  lemma {:induction false} LinesShape<T>(items: seq<T>, render: T -> string)
    ensures |Lines(items, render)| == |items|
    ensures forall i | 0 <= i < |items| :: Lines(items, render)[i] == render(items[i])
  {
    if items != [] {
      var n := |items| - 1;
      LinesShape(items[..n], render);
      assert forall i | 0 <= i < n :: items[..n][i] == items[i];
    }
  }

  lemma LinesSnoc<T>(items: seq<T>, render: T -> string, i: nat)
    requires i < |items|
    ensures Lines(items[..i + 1], render) == Lines(items[..i], render) + [render(items[i])]
  {
    assert items[..i + 1][..i] == items[..i];
  }

  lemma FlattenSnoc<T>(items: seq<T>, render: T -> seq<string>, i: nat)
    requires i < |items|
    ensures Flatten(items[..i + 1], render) == Flatten(items[..i], render) + render(items[i])
  {
    assert items[..i + 1][..i] == items[..i];
  }

  /** With blocks of k lines each, the body has k lines per item. */
  lemma {:induction false} FlattenLength<T>(items: seq<T>, render: T -> seq<string>, k: nat)
    requires forall i | 0 <= i < |items| :: |render(items[i])| == k
    ensures |Flatten(items, render)| == k * |items|
  {
    if items != [] {
      var n := |items| - 1;
      FlattenLength(items[..n], render, k);
      assert k * |items| == k * n + k;
    }
  }

  lemma {:induction false} FlattenConcat<T>(a: seq<T>, b: seq<T>, render: T -> seq<string>)
    ensures Flatten(a + b, render) == Flatten(a, render) + Flatten(b, render)
    decreases |b|
  {
    if b == [] {
      assert a + b == a;
    } else {
      var n := |b| - 1;
      assert (a + b)[..|a + b| - 1] == a + b[..n];
      FlattenConcat(a, b[..n], render);
      AppendAssoc(Flatten(a, render), Flatten(b[..n], render), render(b[n]));
    }
  }

  /** With blocks of k lines each, block i sits at lines k*i .. k*i+k. */
  lemma FlattenBlock<T>(items: seq<T>, render: T -> seq<string>, k: nat, i: nat)
    requires forall j | 0 <= j < |items| :: |render(items[j])| == k
    requires i < |items|
    ensures k * i + k <= |Flatten(items, render)| && Flatten(items, render)[k * i .. k * i + k] == render(items[i])
  {
    var before, after := items[..i], items[i + 1..];
    assert items == before + [items[i]] + after;
    FlattenConcat(before + [items[i]], after, render);
    FlattenConcat(before, [items[i]], render);
    assert Flatten([items[i]], render) == render(items[i]) by {
      assert [items[i]][..0] == [];
    }
    assert forall j | 0 <= j < i :: before[j] == items[j];
    FlattenLength(before, render, k);
    Framed(Flatten(before, render), render(items[i]), Flatten(after, render));
  }

  /** The same, for every block at once. */
  lemma FlattenShape<T>(items: seq<T>, render: T -> seq<string>, k: nat)
    requires forall i | 0 <= i < |items| :: |render(items[i])| == k
    ensures |Flatten(items, render)| == k * |items|
    ensures forall i | 0 <= i < |items| ::
      k * i + k <= |Flatten(items, render)| && Flatten(items, render)[k * i .. k * i + k] == render(items[i])
  {
    FlattenLength(items, render, k);
    forall i | 0 <= i < |items|
      ensures k * i + k <= |Flatten(items, render)| && Flatten(items, render)[k * i .. k * i + k] == render(items[i])
    {
      FlattenBlock(items, render, k, i);
    }
  }

  /** When every block holds exactly one line that satisfies p, there are as
      many such lines as items. */
  lemma {:induction false} FlattenCount<T>(items: seq<T>, render: T -> seq<string>, p: string -> bool)
    requires forall i | 0 <= i < |items| :: Count(render(items[i]), p) == 1
    ensures Count(Flatten(items, render), p) == |items|
  {
    if items != [] {
      var n := |items| - 1;
      FlattenCount(items[..n], render, p);
      CountConcat(Flatten(items[..n], render), render(items[n]), p);
    }
  }

  lemma AppendAssoc(a: seq<string>, b: seq<string>, c: seq<string>)
    ensures (a + b) + c == a + (b + c)
  {
  }

  /** A document framed by a head and a tail: where each part sits. */
  lemma Framed(head: seq<string>, body: seq<string>, tail: seq<string>)
    ensures var d := head + body + tail;
      && |d| == |head| + |body| + |tail|
      && d[..|head|] == head
      && d[|head| + |body|..] == tail
      && forall lo, hi | 0 <= lo <= hi <= |body| :: d[|head| + lo .. |head| + hi] == body[lo..hi]
  {
  }

  /** Puts a decoded character in front of the rest of a decoding. */
  function Prepend(c: char, rest: Option<string>): Option<string> {
    match rest
    case None => None
    case Some(t) => Some([c] + t)
  }

  /** How many of the lines satisfy p. */
  function Count(lines: seq<string>, p: string -> bool): nat {
    if lines == [] then 0
    else Count(lines[..|lines| - 1], p) + (if p(lines[|lines| - 1]) then 1 else 0)
  }

  lemma {:induction false} CountConcat(a: seq<string>, b: seq<string>, p: string -> bool)
    ensures Count(a + b, p) == Count(a, p) + Count(b, p)
    decreases |b|
  {
    if b == [] {
      assert a + b == a;
    } else {
      assert (a + b)[..|a + b| - 1] == a + b[..|b| - 1];
      CountConcat(a, b[..|b| - 1], p);
    }
  }

  lemma FramedCount(head: seq<string>, body: seq<string>, tail: seq<string>, p: string -> bool)
    ensures Count(head + body + tail, p) == Count(head, p) + Count(body, p) + Count(tail, p)
  {
    CountConcat(head, body, p);
    CountConcat(head + body, tail, p);
  }

  lemma {:induction false} CountNone(lines: seq<string>, p: string -> bool)
    requires forall i | 0 <= i < |lines| :: !p(lines[i])
    ensures Count(lines, p) == 0
  {
    if lines != [] {
      CountNone(lines[..|lines| - 1], p);
    }
  }
}
