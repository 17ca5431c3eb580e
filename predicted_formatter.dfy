/** The predicted-value formatter: every prediction file holds one row of
    class probabilities per sample; each row becomes the index of its
    largest value, and the indices are written, one per line, to a file
    whose name ends in `_index.csv`. */
module PredictedFormatter {
  import opened Common
  import opened Text

  /** `max()` of an empty row raises `ValueError`; the row is named by its
      position in the file. */
  datatype FormatError = EmptyRow(row: nat)

  // ---------------------------------------------------------------------
  // translate_file
  // ---------------------------------------------------------------------

  /** Python's `max` of a non-empty row. */
  function Max(row: seq<real>): (m: real)
    requires |row| > 0
    ensures m in row
    ensures forall k :: 0 <= k < |row| ==> row[k] <= m
  {
    if |row| == 1 then row[0]
    else
      var m := Max(row[..|row| - 1]);
      assert forall k :: 0 <= k < |row| - 1 ==> row[k] == row[..|row| - 1][k];
      if row[|row| - 1] > m then row[|row| - 1] else m
  }

  /** `values.index(max(values))`: the first position holding the maximum. */
  function ArgMax(row: seq<real>): (i: nat)
    requires |row| > 0
    ensures i < |row|
    ensures forall k :: 0 <= k < |row| ==> row[k] <= row[i]
    ensures forall k :: 0 <= k < i ==> row[k] < row[i]
  {
    var m := Max(row);
    var i := FirstIndex(row, m).value;
    assert forall k :: 0 <= k < i ==> row[k] in row[..i];
    i
  }

  /** The two properties of `ArgMax` single out one position. */
  lemma ArgMaxUnique(row: seq<real>, j: nat)
    requires j < |row|
    requires forall k :: 0 <= k < |row| ==> row[k] <= row[j]
    requires forall k :: 0 <= k < j ==> row[k] < row[j]
    ensures j == ArgMax(row)
  {
  }

  /** The translation of the first `n` rows, in row order, stopping at the
      first empty row. */
  function TranslatePrefix(rows: seq<seq<real>>, n: nat): Result<seq<nat>, FormatError>
    requires n <= |rows|
  {
    if n == 0 then Ok([])
    else
      match TranslatePrefix(rows, n - 1)
      case Err(e) => Err(e)
      case Ok(xs) =>
        if |rows[n - 1]| == 0 then Err(EmptyRow(n - 1)) else Ok(xs + [ArgMax(rows[n - 1])])
  }

  /** One index per row, each the first position of the row's maximum;
      or else the error of the first empty row. */
  lemma TranslatePrefixSpec(rows: seq<seq<real>>, n: nat)
    requires n <= |rows|
    ensures var r := TranslatePrefix(rows, n);
      && (r.Ok? <==> forall k :: 0 <= k < n ==> |rows[k]| > 0)
      && (r.Ok? ==> |r.value| == n && forall k :: 0 <= k < n ==> r.value[k] == ArgMax(rows[k]))
      && (r.Err? ==> r.error.row < n && rows[r.error.row] == [] && forall k :: 0 <= k < r.error.row ==> |rows[k]| > 0)
  {
    TranslateOk(rows, n);
    TranslateErr(rows, n);
  }

  /** The translation succeeds exactly when no row is empty, and then
      holds each row's first maximum. */
  lemma {:induction false} TranslateOk(rows: seq<seq<real>>, n: nat)
    requires n <= |rows|
    ensures var r := TranslatePrefix(rows, n);
      && (r.Ok? <==> forall k :: 0 <= k < n ==> |rows[k]| > 0)
      && (r.Ok? ==> |r.value| == n && forall k :: 0 <= k < n ==> r.value[k] == ArgMax(rows[k]))
  {
    if n > 0 {
      TranslateOk(rows, n - 1);
      var prev := TranslatePrefix(rows, n - 1);
      if prev.Ok? && |rows[n - 1]| > 0 {
        var xs := prev.value;
        var ys := xs + [ArgMax(rows[n - 1])];
        assert TranslatePrefix(rows, n) == Ok(ys);
        assert forall k :: 0 <= k < n - 1 ==> ys[k] == xs[k];
      }
    }
  }

  /** A failed translation names the first empty row. */
  lemma {:induction false} TranslateErr(rows: seq<seq<real>>, n: nat)
    requires n <= |rows|
    ensures var r := TranslatePrefix(rows, n);
      r.Err? ==> r.error.row < n && rows[r.error.row] == [] && forall k :: 0 <= k < r.error.row ==> |rows[k]| > 0
  {
    if n > 0 {
      TranslateErr(rows, n - 1);
      TranslateOk(rows, n - 1);
    }
  }

  /** After the first empty row, later rows change nothing. */
  lemma {:induction false} TranslatePrefixStops(rows: seq<seq<real>>, i: nat, n: nat)
    requires i <= n <= |rows|
    requires TranslatePrefix(rows, i).Err?
    ensures TranslatePrefix(rows, n) == TranslatePrefix(rows, i)
    decreases n
  {
    if i < n {
      TranslatePrefixStops(rows, i, n - 1);
    }
  }

  /** What `translate_file` returns for the rows of a file. */
  function Translated(rows: seq<seq<real>>): Result<seq<nat>, FormatError> {
    TranslatePrefix(rows, |rows|)
  }

  /** `translate_file`, with the rows pandas reads from the file as input. */
  method TranslateFile(rows: seq<seq<real>>) returns (r: Result<seq<nat>, FormatError>)
    ensures r == Translated(rows)
    ensures r.Ok? ==> |r.value| == |rows|
    ensures r.Ok? ==> forall k :: 0 <= k < |rows| ==>
      var row := rows[k]; var i := r.value[k];
      i < |row| && (forall j :: 0 <= j < |row| ==> row[j] <= row[i]) && forall j :: 0 <= j < i ==> row[j] < row[i]
  {
    var formatted: seq<nat> := [];
    var i := 0;
    while i < |rows|
      invariant 0 <= i <= |rows|
      invariant TranslatePrefix(rows, i) == Ok(formatted)
    {
      var values := rows[i];
      if |values| == 0 {
        TranslatePrefixStops(rows, i + 1, |rows|);
        return Err(EmptyRow(i));
      }
      var index := ArgMax(values);
      formatted := formatted + [index];
      i := i + 1;
    }
    TranslatedMaxima(rows);
    return Ok(formatted);
  }

  /** A successful translation holds, for every row, the first position of
      the row's maximum. */
  lemma TranslatedMaxima(rows: seq<seq<real>>)
    requires Translated(rows).Ok?
    ensures |Translated(rows).value| == |rows|
    ensures forall k :: 0 <= k < |rows| ==>
      var row := rows[k]; var i := Translated(rows).value[k];
      i < |row| && (forall j :: 0 <= j < |row| ==> row[j] <= row[i]) && forall j :: 0 <= j < i ==> row[j] < row[i]
  {
    TranslatePrefixSpec(rows, |rows|);
  }

  // ---------------------------------------------------------------------
  // write_file
  // ---------------------------------------------------------------------

  const IndexSuffix: string := "_index.csv"

  /** Python's `s[:stop]`: a negative stop counts from the end, and both
      ends are clamped to the string. */
  function SliceTo(s: string, stop: int): string {
    if stop >= 0 then s[..if stop <= |s| then stop else |s|]
    else if |s| + stop >= 0 then s[..|s| + stop]
    else []
  }

  /** `file_path[:len(file_path) - 4] + '_index.csv'`. */
  function NewFilePath(path: string): (r: string)
    ensures |r| >= |IndexSuffix| && r[|r| - |IndexSuffix|..] == IndexSuffix
    ensures r[..|r| - |IndexSuffix|] <= path
  {
    SliceTo(path, |path| - 4) + IndexSuffix
  }

  /** A path of four characters or more loses exactly its last four. */
  lemma NewFilePathDrops(path: string)
    requires |path| >= 4
    ensures NewFilePath(path) == path[..|path| - 4] + IndexSuffix
  {
  }

  /** `x.csv` becomes `x_index.csv`. */
  lemma NewFilePathCsv(stem: string)
    ensures NewFilePath(stem + ".csv") == stem + IndexSuffix
  {
    assert (stem + ".csv")[..|stem|] == stem;
  }

  /** The text written for `data`: each index in decimal, then a newline. */
  function Lines(data: seq<nat>): string {
    if data == [] then [] else NatToString(data[0]) + "\n" + Lines(data[1..])
  }

  /** Writing one more index appends its line. */
  lemma {:induction false} LinesSnoc(data: seq<nat>, x: nat)
    ensures Lines(data + [x]) == Lines(data) + NatToString(x) + "\n"
    decreases |data|
  {
    if data == [] {
      assert Lines([x]) == NatToString(x) + "\n" + Lines([]);
    } else {
      assert (data + [x])[1..] == data[1..] + [x];
      LinesSnoc(data[1..], x);
    }
  }

  /** The file holds one line per index. */
  lemma {:induction false} LinesCount(data: seq<nat>)
    ensures Count(Lines(data), '\n') == |data|
    decreases |data|
  {
    if data != [] {
      var d := NatToString(data[0]);
      CountAbsent(d, '\n');
      CountAppend(d, "\n", '\n');
      CountAppend(d + "\n", Lines(data[1..]), '\n');
      LinesCount(data[1..]);
    }
  }

  /** Reading the indices back: every line must be a non-empty decimal
      ended by a newline; anything else is unreadable. */
  function ReadIndices(content: string): Option<seq<nat>>
    decreases |content|
  {
    if content == [] then Some([])
    else
      match FirstIndex(content, '\n')
      case None => None
      case Some(i) =>
        var line := content[..i];
        if line == [] || !AllDigits(line) then None
        else
          match ReadIndices(content[i + 1..])
          case None => None
          case Some(rest) => Some([ParseNat(line)] + rest)
  }

  /** The first newline of `s + "\n" + rest`, when `s` has none, is the one
      after `s`. */
  lemma FirstNewline(s: string, rest: string)
    requires '\n' !in s
    ensures FirstIndex(s + "\n" + rest, '\n') == Some(|s|)
  {
    var t := s + "\n" + rest;
    assert t[|s|] == '\n';
    assert forall j :: 0 <= j < |s| ==> t[j] == s[j];
    var r := FirstIndex(t, '\n');
    assert r.value >= |s|;
    assert forall k :: |s| < k <= |t| ==> t[..k][|s|] == '\n';
  }

  /** The written file reads back as the indices it was written from. */
  lemma {:induction false} ReadIndicesLines(data: seq<nat>)
    ensures ReadIndices(Lines(data)) == Some(data)
    decreases |data|
  {
    if data != [] {
      LinesHead(data);
      ReadIndicesLines(data[1..]);
      ReadIndicesNat(data[0], Lines(data[1..]), data[1..]);
    }
  }

  lemma LinesHead(data: seq<nat>)
    requires data != []
    ensures Lines(data) == NatToString(data[0]) + "\n" + Lines(data[1..])
    ensures data == [data[0]] + data[1..]
  {
  }

  /** The line of a number in front of a readable file adds the number in
      front of the file's indices. */
  lemma ReadIndicesNat(x: nat, rest: string, xs: seq<nat>)
    requires ReadIndices(rest) == Some(xs)
    ensures ReadIndices(NatToString(x) + "\n" + rest) == Some([x] + xs)
  {
    ReadIndicesLine(NatToString(x), rest, xs);
    ParseNatToString(x);
  }

  /** A line of digits in front of a readable file adds its number in
      front of the file's indices. */
  lemma ReadIndicesLine(d: string, rest: string, xs: seq<nat>)
    requires d != [] && AllDigits(d) && ReadIndices(rest) == Some(xs)
    ensures ReadIndices(d + "\n" + rest) == Some([ParseNat(d)] + xs)
  {
    var content := d + "\n" + rest;
    assert forall j :: 0 <= j < |d| ==> d[j] != '\n';
    FirstNewline(d, rest);
    assert content[..|d|] == d;
    assert content[|d| + 1..] == rest;
  }

  /** `write_file`: the path written to and the text written. The file
      system is not modelled; the method returns both instead. */
  method WriteFile(path: string, data: seq<nat>) returns (newPath: string, content: string)
    ensures newPath == NewFilePath(path)
    ensures content == Lines(data)
    ensures ReadIndices(content) == Some(data) && Count(content, '\n') == |data|
  {
    newPath := SliceTo(path, |path| - 4) + IndexSuffix;
    content := [];
    var i := 0;
    while i < |data|
      invariant 0 <= i <= |data|
      invariant content == Lines(data[..i])
    {
      LinesSnoc(data[..i], data[i]);
      assert data[..i + 1] == data[..i] + [data[i]];
      content := content + NatToString(data[i]) + "\n";
      i := i + 1;
    }
    assert data[..i] == data;
    ReadIndicesLines(data);
    LinesCount(data);
  }

  // ---------------------------------------------------------------------
  // main
  // ---------------------------------------------------------------------

  /** One file written: its path and its text. */
  datatype Written = Written(path: string, content: string)

  /** The files written so far and the error that stopped the run. */
  datatype FormatState = FormatState(writes: seq<Written>, error: Option<FormatError>)

  /** The rows of each prediction file, as pandas would read them. */
  type Reader = string -> seq<seq<real>>

  /** One pass of the innermost loop of `main`: translate, then write. */
  function FormatStep(s: FormatState, it: FileAt, read: Reader): FormatState {
    match Translated(read(it.path))
    case Err(e) => FormatState(s.writes, Some(e))
    case Ok(data) => FormatState(s.writes + [Written(NewFilePath(it.path), Lines(data))], None)
  }

  /** Formatting the files `items` in order from state `s`; the first
      error ends the run. */
  function FormatFrom(s: FormatState, items: seq<FileAt>, read: Reader): FormatState
    decreases |items|
  {
    if s.error.Some? || items == [] then s
    else FormatFrom(FormatStep(s, items[0], read), items[1..], read)
  }

  /** A run from nothing written. */
  function FormatRun(items: seq<FileAt>, read: Reader): FormatState {
    FormatFrom(FormatState([], None), items, read)
  }

  lemma {:induction false} FormatFromAppend(s: FormatState, a: seq<FileAt>, b: seq<FileAt>, read: Reader)
    ensures FormatFrom(s, a + b, read) == FormatFrom(FormatFrom(s, a, read), b, read)
    decreases |a|
  {
    if s.error.None? && a != [] {
      assert (a + b)[1..] == a[1..] + b;
      FormatFromAppend(FormatStep(s, a[0], read), a[1..], b, read);
    } else if a == [] {
      assert a + b == b;
    }
  }

  /** A run that has stopped on a prefix of `items` stops there on all of
      `items`. */
  lemma FormatFromStopped(s: FormatState, done: seq<FileAt>, items: seq<FileAt>, read: Reader)
    requires done <= items
    requires FormatFrom(s, done, read).error.Some?
    ensures FormatFrom(s, items, read) == FormatFrom(s, done, read)
  {
    assert items == done + items[|done|..];
    FormatFromAppend(s, done, items[|done|..], read);
  }

  /** The file written for an item whose rows translate. */
  function WrittenFor(it: FileAt, read: Reader): Written
    requires Translated(read(it.path)).Ok?
  {
    Written(NewFilePath(it.path), Lines(Translated(read(it.path)).value))
  }

  /** The writes of a run over `items`: one per file, in order, up to the
      first file with an empty row. */
  predicate WritesMatch(items: seq<FileAt>, read: Reader, r: FormatState) {
    && |r.writes| <= |items|
    && (r.error.None? <==> forall k :: 0 <= k < |items| ==> Translated(read(items[k].path)).Ok?)
    && (r.error.None? ==> |r.writes| == |items|)
    && (r.error.Some? ==> |r.writes| < |items| && Translated(read(items[|r.writes|].path)) == Err(r.error.value))
    && (forall k :: 0 <= k < |r.writes| ==>
          Translated(read(items[k].path)).Ok? && r.writes[k] == WrittenFor(items[k], read))
  }

  lemma WritesMatchStep(items: seq<FileAt>, it: FileAt, read: Reader, prev: FormatState)
    requires WritesMatch(items, read, prev)
    ensures WritesMatch(items + [it], read, if prev.error.Some? then prev else FormatStep(prev, it, read))
  {
    var all := items + [it];
    assert forall k :: 0 <= k < |items| ==> all[k] == items[k];
    if prev.error.Some? {
      assert all[|prev.writes|] == items[|prev.writes|];
    } else {
      assert all[|prev.writes|] == it;
    }
  }

  /** Each file is translated and written, in order, until the first file
      with an empty row, which stops the run with that row's error. */
  lemma {:induction false} FormatRunWrites(items: seq<FileAt>, read: Reader)
    ensures WritesMatch(items, read, FormatRun(items, read))
    decreases |items|
  {
    if items != [] {
      var init := items[..|items| - 1];
      var it := items[|items| - 1];
      assert items == init + [it];
      FormatRunWrites(init, read);
      FormatFromAppend(FormatState([], None), init, [it], read);
      WritesMatchStep(init, it, read, FormatRun(init, read));
    } else {
      assert FormatRun(items, read) == FormatState([], None);
    }
  }

  /** The innermost loop of `main`, over the files of one subject. */
  method FormatSubject(model: string, e: SubjectFiles, read: Reader, writes0: seq<Written>)
    returns (writes: seq<Written>, error: Option<FormatError>)
    ensures FormatFrom(FormatState(writes0, None), SubjectItems(model, e), read) == FormatState(writes, error)
  {
    ghost var items := SubjectItems(model, e);
    writes := writes0;
    var k := 0;
    while k < |e.files|
      invariant 0 <= k <= |e.files|
      invariant FormatFrom(FormatState(writes, None), items[k..], read)
        == FormatFrom(FormatState(writes0, None), items, read)
    {
      var filePath := e.files[k];
      assert items[k].path == filePath;
      assert items[k..][1..] == items[k + 1..];
      var translated := TranslateFile(read(filePath));
      if translated.Err? {
        return writes, Some(translated.error);
      }
      var newPath, content := WriteFile(filePath, translated.value);
      writes := writes + [Written(newPath, content)];
      k := k + 1;
    }
    return writes, None;
  }

  /** The middle loop of `main`, over the subjects of one model. */
  method FormatModel(m: ModelFiles, read: Reader, writes0: seq<Written>)
    returns (writes: seq<Written>, error: Option<FormatError>)
    ensures FormatFrom(FormatState(writes0, None), ModelItems(m, |m.subjects|), read) == FormatState(writes, error)
  {
    ghost var s0 := FormatState(writes0, None);
    writes := writes0;
    var j := 0;
    while j < |m.subjects|
      invariant 0 <= j <= |m.subjects|
      invariant FormatFrom(s0, ModelItems(m, j), read) == FormatState(writes, None)
    {
      FormatModelStep(s0, m, j, read);
      writes, error := FormatSubject(m.model, m.subjects[j], read, writes);
      if error.Some? {
        FormatModelStopped(s0, m, j + 1, read);
        return;
      }
      j := j + 1;
    }
    return writes, None;
  }

  /** `main`, given the path tree of the prediction files and the rows each
      file holds. */
  method FormatAll(filePaths: PathTree, read: Reader) returns (writes: seq<Written>, error: Option<FormatError>)
    ensures FormatRun(AllItems(filePaths), read) == FormatState(writes, error)
  {
    ghost var s0 := FormatState([], None);
    writes := [];
    var i := 0;
    while i < |filePaths|
      invariant 0 <= i <= |filePaths|
      invariant FormatFrom(s0, TreeItems(filePaths, i), read) == FormatState(writes, None)
    {
      FormatTreeStep(s0, filePaths, i, read);
      writes, error := FormatModel(filePaths[i], read, writes);
      if error.Some? {
        FormatTreeStopped(s0, filePaths, i + 1, read);
        return;
      }
      i := i + 1;
    }
    return writes, None;
  }

  /** The run over the first `j + 1` subjects goes on from the run over the
      first `j` with the files of subject `j`. */
  lemma FormatModelStep(s0: FormatState, m: ModelFiles, j: nat, read: Reader)
    requires j < |m.subjects|
    ensures FormatFrom(s0, ModelItems(m, j + 1), read)
      == FormatFrom(FormatFrom(s0, ModelItems(m, j), read), SubjectItems(m.model, m.subjects[j]), read)
  {
    FormatFromAppend(s0, ModelItems(m, j), SubjectItems(m.model, m.subjects[j]), read);
  }

  /** A run that stops within the first `j` subjects stops there on the whole model. */
  lemma FormatModelStopped(s0: FormatState, m: ModelFiles, j: nat, read: Reader)
    requires j <= |m.subjects| && FormatFrom(s0, ModelItems(m, j), read).error.Some?
    ensures FormatFrom(s0, ModelItems(m, |m.subjects|), read) == FormatFrom(s0, ModelItems(m, j), read)
  {
    ModelItemsPrefix(m, j, |m.subjects|);
    FormatFromStopped(s0, ModelItems(m, j), ModelItems(m, |m.subjects|), read);
  }

  /** The run over the first `i + 1` models goes on from the run over the
      first `i` with the files of model `i`. */
  lemma FormatTreeStep(s0: FormatState, t: PathTree, i: nat, read: Reader)
    requires i < |t|
    ensures FormatFrom(s0, TreeItems(t, i + 1), read)
      == FormatFrom(FormatFrom(s0, TreeItems(t, i), read), ModelItems(t[i], |t[i].subjects|), read)
  {
    FormatFromAppend(s0, TreeItems(t, i), ModelItems(t[i], |t[i].subjects|), read);
  }

  /** A run that stops within the first `i` models stops there on the whole tree. */
  lemma FormatTreeStopped(s0: FormatState, t: PathTree, i: nat, read: Reader)
    requires i <= |t| && FormatFrom(s0, TreeItems(t, i), read).error.Some?
    ensures FormatFrom(s0, AllItems(t), read) == FormatFrom(s0, TreeItems(t, i), read)
  {
    TreeItemsPrefix(t, i, |t|);
    FormatFromStopped(s0, TreeItems(t, i), AllItems(t), read);
  }

  /** When no prediction file has an empty row, every file of the tree is
      written once, in nested order, under its `_index.csv` name. */
  lemma FormatRunComplete(filePaths: PathTree, read: Reader)
    requires forall it :: it in AllItems(filePaths) ==> Translated(read(it.path)).Ok?
    ensures FormatRun(AllItems(filePaths), read).error.None?
    ensures |FormatRun(AllItems(filePaths), read).writes| == |AllItems(filePaths)| == TreeCount(filePaths)
    ensures forall k :: 0 <= k < |AllItems(filePaths)| ==>
      FormatRun(AllItems(filePaths), read).writes[k].path == NewFilePath(AllItems(filePaths)[k].path)
  {
    var items := AllItems(filePaths);
    assert forall k :: 0 <= k < |items| ==> items[k] in items;
    FormatRunWrites(items, read);
    AllItemsCount(filePaths, |filePaths|);
    assert filePaths[..|filePaths|] == filePaths;
  }
}
