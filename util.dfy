/**
 * CSV helpers of the fitting tools: delimiter sniffing on the header line,
 * projection of one named column out of the parsed rows, and additive noise
 * for synthetic test data.
 */
module CsvUtil {
  import opened Outcomes
  import opened Numeric

  /**
   * A cell as `csv.DictReader` stores it: the text of the field, or the
   * `restval` (`None`) it fills in where a row is shorter than the header.
   */
  datatype CellText = Text(text: string) | RestVal

  /**
   * One row as `csv.DictReader` yields it: `(column name, cell)` pairs in
   * header order, and the fields beyond the header's length, which the
   * reader stores as one list under its `restkey` (`None`) after the named
   * columns; the list is empty when the row is not longer than the header.
   */
  datatype Row = Row(cells: seq<(string, CellText)>, restKey: seq<string>)

  /** `row[key]` for a column name: the cell stored under `key`, or `None` where a lookup raises `KeyError`. */
  function Lookup(cells: seq<(string, CellText)>, key: string): (r: Option<CellText>)
    ensures r.None? <==> forall i :: 0 <= i < |cells| ==> cells[i].0 != key
    ensures r.Some? ==> exists i :: 0 <= i < |cells| && cells[i] == (key, r.value)
  {
    if |cells| == 0 then None
    else if cells[0].0 == key then Some(cells[0].1)
    else
      var rest := Lookup(cells[1..], key);
      assert forall i :: 1 <= i < |cells| ==> cells[i] == cells[1..][i - 1];
      rest
  }

  // ---------------------------------------------------------------- get_delimiter

  /** The default `valid_delimiters`: comma first, then semicolon. */
  const DefaultDelimiters: seq<string> := [",", ";"]

  /** `d` starts at position `i` of `s`. */
  predicate OccursAt(d: string, s: string, i: int) {
    0 <= i <= |s| - |d| && s[i..i + |d|] == d
  }

  /** Python's `d in s` on strings: `d` occurs as a contiguous piece of `s`. */
  predicate Occurs(d: string, s: string) {
    exists i :: 0 <= i <= |s| - |d| && OccursAt(d, s, i)
  }

  /**
   * A line break as a text-mode file reads it with universal newlines:
   * `'\n'`, or `'\r'` alone or followed by `'\n'`.
   */
  predicate IsBreak(c: char) {
    c == '\n' || c == '\r'
  }

  /** Index of the first line break in `contents`, if there is one. */
  function FirstBreak(contents: string): (r: Option<nat>)
    ensures r.None? <==> forall i :: 0 <= i < |contents| ==> !IsBreak(contents[i])
    ensures r.Some? ==> r.value < |contents| && IsBreak(contents[r.value])
    ensures r.Some? ==> forall i :: 0 <= i < r.value ==> !IsBreak(contents[i])
  {
    if |contents| == 0 then None
    else if IsBreak(contents[0]) then Some(0)
    else
      assert forall i :: 1 <= i < |contents| ==> contents[i] == contents[1..][i - 1];
      match FirstBreak(contents[1..])
      case None => None
      case Some(i) => Some(i + 1)
  }

  /**
   * `readline()` on a file opened in text mode: everything up to the first
   * line break, with that break (`'\n'`, `'\r'` or `'\r\n'`) read as a
   * single `'\n'`; the whole text when it has no break.
   */
  function FirstLine(contents: string): (line: string)
    ensures '\r' !in line
    ensures '\n' in line <==> exists i :: 0 <= i < |contents| && IsBreak(contents[i])
    ensures '\n' !in line ==> line == contents
    ensures '\n' in line ==>
      var n := |line| - 1;
      n < |contents| && line == contents[..n] + "\n" && IsBreak(contents[n]) &&
      forall i :: 0 <= i < n ==> !IsBreak(contents[i])
  {
    match FirstBreak(contents)
    case None => contents
    case Some(n) =>
      assert forall i :: 0 <= i < n ==> contents[..n][i] == contents[i];
      contents[..n] + "\n"
  }

  /**
   * Index of the first candidate, in list order, that occurs in `header`.
   */
  function FirstDelimiter(valid: seq<string>, header: string): (r: Option<nat>)
    ensures r.None? <==> forall j :: 0 <= j < |valid| ==> !Occurs(valid[j], header)
    ensures r.Some? ==> r.value < |valid| && Occurs(valid[r.value], header)
    ensures r.Some? ==> forall j :: 0 <= j < r.value ==> !Occurs(valid[j], header)
  {
    if |valid| == 0 then None
    else if Occurs(valid[0], header) then Some(0)
    else
      match FirstDelimiter(valid[1..], header)
      case None => None
      case Some(j) => Some(j + 1)
  }

  /** Raised as `FileError` when the header holds no valid delimiter. */
  datatype FileError = NoValidDelimiter

  /**
   * `get_delimiter`: reads the first line of the file and returns the first
   * valid delimiter, in list order, that occurs anywhere in it.
   */
  method GetDelimiter(contents: string, valid: seq<string>) returns (r: Result<string, FileError>)
    ensures r.Failure? <==> FirstDelimiter(valid, FirstLine(contents)).None?
    ensures r.Success? ==> r.value == valid[FirstDelimiter(valid, FirstLine(contents)).value]
  {
    var header := FirstLine(contents);
    var i := 0;
    while i < |valid|
      invariant 0 <= i <= |valid|
      invariant forall j :: 0 <= j < i ==> !Occurs(valid[j], header)
    {
      if Occurs(valid[i], header) {
        return Success(valid[i]);
      }
      i := i + 1;
    }
    return Failure(NoValidDelimiter);
  }

  /** A one-character delimiter occurs in a header exactly when the character appears in it. */
  lemma OccursChar(c: char, s: string)
    ensures Occurs([c], s) <==> c in s
  {
    if c in s {
      var i :| 0 <= i < |s| && s[i] == c;
      assert OccursAt([c], s, i);
    }
    if Occurs([c], s) {
      var i :| 0 <= i <= |s| - |[c]| && OccursAt([c], s, i);
      assert s[i..i + 1] == [c];
      assert s[i] == c;
    }
  }

  /**
   * With the default list a comma wins over a semicolon, a semicolon is taken
   * only when no comma occurs, and a header with neither is rejected.
   */
  lemma DefaultDelimiterChoice(header: string)
    ensures ',' in header ==> FirstDelimiter(DefaultDelimiters, header) == Some(0)
    ensures ',' !in header && ';' in header ==> FirstDelimiter(DefaultDelimiters, header) == Some(1)
    ensures ',' !in header && ';' !in header ==> FirstDelimiter(DefaultDelimiters, header) == None
  {
    OccursChar(',', header);
    OccursChar(';', header);
    assert DefaultDelimiters[0] == [','] && DefaultDelimiters[1] == [';'];
  }

  /** Text after the first line break, of any of the three kinds, never reaches the delimiter search. */
  lemma FirstLineIgnoresRest(line: string, brk: char, rest: string)
    requires forall i :: 0 <= i < |line| ==> !IsBreak(line[i])
    requires IsBreak(brk)
    ensures FirstLine(line + [brk] + rest) == line + "\n"
  {
    var contents := line + [brk] + rest;
    assert contents[|line|] == brk;
    assert contents[..|line|] == line;
    assert forall i :: 0 <= i < |line| ==> contents[i] == line[i];
    assert FirstBreak(contents) == Some(|line|);
  }

  /**
   * A header ended by a lone carriage return: the semicolon of the first
   * line is found, and the comma of the second line is never seen.
   */
  lemma CarriageReturnEndsHeader()
    ensures FirstLine("a;b\rc,d") == "a;b\n"
    ensures FirstDelimiter(DefaultDelimiters, FirstLine("a;b\rc,d")) == Some(1)
  {
    FirstLineIgnoresRest("a;b", '\r', "c,d");
    assert "a;b" + ['\r'] + "c,d" == "a;b\rc,d";
    DefaultDelimiterChoice("a;b\n");
    assert "a;b\n"[1] == ';';
  }

  // ---------------------------------------------------------------- column

  /**
   * Why `column` fails: a row without the key, or a cell `float()` rejects
   * (`ValueError` on text that is not a number, `TypeError` on `None`).
   */
  datatype ColumnError = MissingKey | NotANumber

  /** `float(row[key])` for one row; `parseFloat` stands for Python's `float` on text. */
  function Cell(row: Row, key: string, parseFloat: string -> Option<real>): Result<real, ColumnError> {
    match Lookup(row.cells, key)
    case None => Failure(MissingKey)
    case Some(RestVal) => Failure(NotANumber)
    case Some(Text(text)) =>
      match parseFloat(text)
      case None => Failure(NotANumber)
      case Some(v) => Success(v)
  }

  /**
   * `column`: one value per row, in row order; the first row that lacks the key
   * or holds a non-numeric cell aborts with that row's error.
   */
  method Column(data: seq<Row>, key: string, parseFloat: string -> Option<real>)
    returns (r: Result<seq<real>, ColumnError>)
    ensures r.Success? <==> forall i :: 0 <= i < |data| ==> Cell(data[i], key, parseFloat).Success?
    ensures r.Success? ==> |r.value| == |data|
    ensures r.Success? ==> forall i :: 0 <= i < |data| ==> r.value[i] == Cell(data[i], key, parseFloat).value
    ensures r.Failure? ==>
      (exists i :: 0 <= i < |data| &&
        (forall j :: 0 <= j < i ==> Cell(data[j], key, parseFloat).Success?) &&
        Cell(data[i], key, parseFloat) == Failure(r.error))
  {
    var columnData: seq<real> := [];
    var i := 0;
    while i < |data|
      invariant 0 <= i <= |data|
      invariant |columnData| == i
      invariant forall j :: 0 <= j < i ==> Cell(data[j], key, parseFloat) == Success(columnData[j])
    {
      var cell := Cell(data[i], key, parseFloat);
      if cell.Failure? {
        return Failure(cell.error);
      }
      columnData := columnData + [cell.value];
      i := i + 1;
    }
    return Success(columnData);
  }

  // ---------------------------------------------------------------- add_noise

  /** `[a + b for a, b in zip(xs, ys)]`: pointwise sums, as long as the shorter input. */
  function ZipAdd(xs: seq<real>, ys: seq<real>): (r: seq<real>)
    ensures |r| == if |xs| < |ys| then |xs| else |ys|
    ensures forall i :: 0 <= i < |r| ==> r[i] == xs[i] + ys[i]
  {
    var n := if |xs| < |ys| then |xs| else |ys|;
    seq(n, i requires 0 <= i < n => xs[i] + ys[i])
  }

  /**
   * `add_noise`: draws `len(y)` samples from `normal(0, noise_level * max(y), n)`
   * and adds them pointwise. `max` of an empty list and a negative scale are
   * the two inputs that raise.
   */
  function AddNoise(y: seq<real>, noiseLevel: real, normal: (real, real, nat) -> seq<real>): (r: Option<seq<real>>)
    ensures r.Some? <==> |y| > 0 && noiseLevel * Max(y) >= 0.0
    ensures r.Some? ==> r.value == ZipAdd(y, normal(0.0, noiseLevel * Max(y), |y|))
  {
    if |y| == 0 then None
    else
      var amplitude := noiseLevel * Max(y);
      if amplitude < 0.0 then None
      else Some(ZipAdd(y, normal(0.0, amplitude, |y|)))
  }

  /**
   * When `add_noise` raises: never on non-empty data with a non-negative
   * sample and a non-negative noise level; always when every sample is
   * negative and the noise level is positive (a negative scale).
   */
  lemma AddNoiseRaises(y: seq<real>, noiseLevel: real, normal: (real, real, nat) -> seq<real>)
    ensures |y| == 0 ==> AddNoise(y, noiseLevel, normal).None?
    ensures noiseLevel >= 0.0 && (exists i :: 0 <= i < |y| && y[i] >= 0.0) ==> AddNoise(y, noiseLevel, normal).Some?
    ensures |y| > 0 && noiseLevel > 0.0 && (forall i :: 0 <= i < |y| ==> y[i] < 0.0) ==> AddNoise(y, noiseLevel, normal).None?
  {
    if |y| > 0 {
      var m := Max(y);
      if noiseLevel >= 0.0 && exists i :: 0 <= i < |y| && y[i] >= 0.0 {
        assert m >= 0.0;
        assert noiseLevel * m >= 0.0;
      }
      if noiseLevel > 0.0 && forall i :: 0 <= i < |y| ==> y[i] < 0.0 {
        assert m < 0.0;
        assert noiseLevel * m < 0.0;
      }
    }
  }

  /** When the generator delivers the requested `len(y)` samples, the noisy output is as long as `y`. */
  lemma AddNoiseKeepsLength(y: seq<real>, noiseLevel: real, normal: (real, real, nat) -> seq<real>)
    requires AddNoise(y, noiseLevel, normal).Some?
    requires |normal(0.0, noiseLevel * Max(y), |y|)| == |y|
    ensures |AddNoise(y, noiseLevel, normal).value| == |y|
    ensures forall i :: 0 <= i < |y| ==>
      AddNoise(y, noiseLevel, normal).value[i] == y[i] + normal(0.0, noiseLevel * Max(y), |y|)[i]
  {
    var noise := normal(0.0, noiseLevel * Max(y), |y|);
    assert AddNoise(y, noiseLevel, normal).value == ZipAdd(y, noise);
  }
}
