/**
 * The data side of the benchmark plotting script: parsing `key: value` result files, turning
 * a list of them into (threads, mean, error) series with NaN rows dropped and a stable sort
 * by thread count, and splitting the readstore result files into contiguous and random runs.
 */
module PlotBenchmarks {
  import opened Wrappers
  import opened JavaText

  /** A Python float: a real number, an infinity of either sign, or NaN. */
  datatype PyFloat = Finite(value: real) | Infinity(negative: bool) | NaN

  /** The Python exceptions the parsing code can raise. */
  datatype PyError =
    | UnpackError(got: nat)       // ValueError from tuple unpacking: `got` values, not 2 (or 3)
    | KeyError(key: string)       // a missing dictionary key
    | ValueError(text: string)    // int() or float() refused `text`
    | ZeroDivisionError

  type Dict = map<string, string>

  // ---------------------------------------------------------------------------------------
  // parse_file

  /** What `key, val = line.strip().split(":")` makes of one line. */
  datatype Unpacked = KeyValue(key: string, value: string) | Malformed(parts: nat)

  /** Unpack one line: exactly two ':'-separated parts, each trimmed, or the part count. */
  function Unpack(line: string): (u: Unpacked)
    ensures u.Malformed? ==> u.parts != 2
    ensures u.KeyValue? ==> ':' !in u.key && ':' !in u.value
  {
    var fields := SplitOn(Strip(line), ':');
    if |fields| == 2 then KeyValue(Strip(fields[0]), Strip(fields[1])) else Malformed(|fields|)
  }

  /** A line unpacks exactly when it holds a single ':'. */
  lemma UnpacksIffOneColon(line: string)
    ensures Unpack(line).KeyValue? <==> Occurrences(line, ':') == 1
  {
    SplitOnCount(Strip(line), ':');
    StripKeeps(line, ':');
  }

  /** A line of whitespace only, the empty line and "\n" included, never unpacks. */
  lemma BlankLineIsMalformed(line: string)
    requires forall k :: 0 <= k < |line| ==> IsPySpace(line[k])
    ensures Unpack(line).Malformed?
  {
    NoSpaceOccurrences(line, ':');
    UnpacksIffOneColon(line);
  }

  /** The lines of a file, unpacked one by one. */
  function UnpackAll(lines: seq<string>): (us: seq<Unpacked>)
    ensures |us| == |lines|
  {
    seq(|lines|, i requires 0 <= i < |lines| => Unpack(lines[i]))
  }

  /** One loop turn of parse_file: store the unpacked key and value, or raise. */
  function Store(acc: Result<Dict, PyError>, u: Unpacked): Result<Dict, PyError>
  {
    match acc
    case Err(e) => Err(e)
    case Ok(d) =>
      match u
      case KeyValue(key, value) => Ok(d[key := value])
      case Malformed(parts) => Err(UnpackError(parts))
  }

  /** The dictionary parse_file builds from a sequence of unpacked lines, or its error. */
  function Parse(us: seq<Unpacked>): Result<Dict, PyError>
  {
    if us == [] then Ok(map[]) else Store(Parse(us[..|us| - 1]), us[|us| - 1])
  }

  /** parse_file on the lines of one file. */
  function ParseLines(lines: seq<string>): Result<Dict, PyError>
  {
    Parse(UnpackAll(lines))
  }

  /** parse_file over the lines of one file, updating the dictionary line by line. */
  method ParseFile(lines: seq<string>) returns (r: Result<Dict, PyError>)
    ensures r == ParseLines(lines)
  {
    ghost var us := UnpackAll(lines);
    var d: Dict := map[];
    for i := 0 to |lines|
      invariant Parse(us[..i]) == Ok(d)
    {
      var parts := SplitOn(Strip(lines[i]), ':');
      ParseStep(us, i);
      UnpackSplits(lines[i], parts);
      if |parts| != 2 {
        PrefixErrorPersists(us, i + 1);
        return Err(UnpackError(|parts|));
      }
      var key, val := Strip(parts[0]), Strip(parts[1]);
      d := d[key := val];
    }
    assert us[..|lines|] == us;
    return Ok(d);
  }

  /** One more line extends the parse by one Store. */
  lemma ParseStep(us: seq<Unpacked>, i: nat)
    requires i < |us|
    ensures Parse(us[..i + 1]) == Store(Parse(us[..i]), us[i])
  {
    assert us[..i + 1][..i] == us[..i];
  }

  /** What Unpack makes of a line, given the fields its stripped text splits into. */
  lemma UnpackSplits(line: string, parts: seq<string>)
    requires parts == SplitOn(Strip(line), ':')
    ensures |parts| != 2 ==> Unpack(line) == Malformed(|parts|)
    ensures |parts| == 2 ==> Unpack(line) == KeyValue(Strip(parts[0]), Strip(parts[1]))
  {
  }

  /** Once a prefix of the file fails, the whole file fails with the same error. */
  lemma {:induction false} PrefixErrorPersists(us: seq<Unpacked>, n: nat)
    requires n <= |us| && Parse(us[..n]).Err?
    ensures Parse(us) == Parse(us[..n])
    decreases |us| - n
  {
    if n < |us| {
      assert us[..n + 1][..n] == us[..n];
      PrefixErrorPersists(us, n + 1);
    } else {
      assert us[..n] == us;
    }
  }

  /** Parsing fails exactly when some line is malformed, and then with the first one's count. */
  lemma ParseFails(us: seq<Unpacked>)
    ensures Parse(us).Err? <==> exists i :: 0 <= i < |us| && us[i].Malformed?
    ensures forall i | 0 <= i < |us| && us[i].Malformed? && (forall j :: 0 <= j < i ==> us[j].KeyValue?) ::
              Parse(us) == Err(UnpackError(us[i].parts))
  {
    if Parse(us).Ok? {
      OkAllKeyValues(us);
    } else if forall j :: 0 <= j < |us| ==> us[j].KeyValue? {
      AllKeyValuesOk(us);
    }
    forall i | 0 <= i < |us| && us[i].Malformed? && (forall j :: 0 <= j < i ==> us[j].KeyValue?)
      ensures Parse(us) == Err(UnpackError(us[i].parts))
    {
      FirstMalformed(us, i);
    }
  }

  lemma {:induction false} OkAllKeyValues(us: seq<Unpacked>)
    requires Parse(us).Ok?
    ensures forall j :: 0 <= j < |us| ==> us[j].KeyValue?
  {
    if us != [] {
      var n := |us| - 1;
      OkAllKeyValues(us[..n]);
      assert forall j :: 0 <= j < n ==> us[..n][j] == us[j];
    }
  }

  lemma {:induction false} AllKeyValuesOk(us: seq<Unpacked>)
    requires forall j :: 0 <= j < |us| ==> us[j].KeyValue?
    ensures Parse(us).Ok?
  {
    if us != [] {
      var n := |us| - 1;
      assert forall j :: 0 <= j < n ==> us[..n][j] == us[j];
      AllKeyValuesOk(us[..n]);
    }
  }

  lemma {:induction false} FirstMalformed(us: seq<Unpacked>, i: nat)
    requires i < |us| && us[i].Malformed?
    requires forall j :: 0 <= j < i ==> us[j].KeyValue?
    ensures Parse(us) == Err(UnpackError(us[i].parts))
  {
    var n := |us| - 1;
    var front := us[..n];
    if i < n {
      assert front[i] == us[i];
      assert forall j :: 0 <= j < i ==> front[j] == us[j];
      FirstMalformed(front, i);
    } else {
      assert forall j :: 0 <= j < n ==> front[j] == us[j];
      AllKeyValuesOk(front);
    }
  }

  /** A parsed file holds exactly the keys its lines name. */
  lemma {:induction false} ParseKeys(us: seq<Unpacked>)
    requires Parse(us).Ok?
    ensures forall i :: 0 <= i < |us| ==> us[i].KeyValue?
    ensures forall k :: k in Parse(us).value <==> exists i :: 0 <= i < |us| && us[i].key == k
  {
    OkAllKeyValues(us);
    if us != [] {
      var n := |us| - 1;
      var front := us[..n];
      ParseKeys(front);
      var d := Parse(us).value;
      assert d == Parse(front).value[us[n].key := us[n].value];
      forall k ensures k in d <==> exists i :: 0 <= i < |us| && us[i].key == k {
        if k in d && k != us[n].key {
          var i :| 0 <= i < n && front[i].key == k;
          assert us[i] == front[i];
        } else if k !in d {
          forall i | 0 <= i < |us| ensures us[i].key != k {
            if i < n {
              assert us[i] == front[i];
            }
          }
        }
      }
    }
  }

  /** Each key maps to the value of the last line that names it: later lines overwrite. */
  lemma {:induction false} ParseLastWins(us: seq<Unpacked>, i: nat)
    requires Parse(us).Ok? && i < |us|
    requires forall j :: 0 <= j < |us| ==> us[j].KeyValue?  // what an Ok parse implies
    requires forall j :: i < j < |us| ==> us[j].key != us[i].key
    ensures us[i].KeyValue? && us[i].key in Parse(us).value
    ensures Parse(us).value[us[i].key] == us[i].value
  {
    OkAllKeyValues(us);
    var n := |us| - 1;
    var front := us[..n];
    var d := Parse(us).value;
    assert d == Parse(front).value[us[n].key := us[n].value];
    if i < n {
      assert front[i] == us[i];
      assert forall j :: i < j < n ==> front[j] == us[j];
      ParseLastWins(front, i);
    }
  }

  /** parse_file on a file fails exactly when one of its lines does not hold a single ':'. */
  lemma ParseLinesFails(lines: seq<string>)
    ensures ParseLines(lines).Err? <==> exists i :: 0 <= i < |lines| && Occurrences(lines[i], ':') != 1
  {
    var us := UnpackAll(lines);
    ParseFails(us);
    forall i | 0 <= i < |lines| ensures us[i].Malformed? <==> Occurrences(lines[i], ':') != 1 {
      UnpacksIffOneColon(lines[i]);
    }
  }

  // ---------------------------------------------------------------------------------------
  // extract_arrays_threaded: one row per file

  /** One benchmark file's point: thread count, mean time and error bar. */
  datatype Row = Row(x: int, y: PyFloat, err: PyFloat)

  /** Python's `s[:-2]`: the text without its last two characters (a unit such as "ms"). */
  function DropLastTwo(s: string): (r: string)
    ensures |s| >= 2 ==> |r| == |s| - 2
    ensures |s| < 2 ==> r == []
    ensures r == s[..|r|]
  {
    if |s| >= 2 then s[..|s| - 2] else []
  }

  lemma DropLastTwoUnit(number: string, a: char, b: char)
    ensures DropLastTwo(number + [a, b]) == number
  {
    assert (number + [a, b])[..|number|] == number;
  }

  /** A Python float divided by a non-zero Python int. */
  function DivideByInt(a: PyFloat, n: int): (r: PyFloat)
    requires n != 0
    ensures a.NaN? <==> r.NaN?
    ensures a.Infinity? <==> r.Infinity?
  {
    match a
    case Finite(v) => Finite(v / n as real)
    case Infinity(negative) => Infinity(negative != (n < 0))
    case NaN => NaN
  }

  lemma DivideByOne(a: PyFloat)
    ensures DivideByInt(a, 1) == a
  {
  }

  /** `int(parsedDict.get('numThreads', 1))`. */
  function ThreadCount(d: Dict, parseInt: string -> Option<int>): (r: Result<int, PyError>)
    ensures "numThreads" !in d ==> r == Ok(1)
  {
    if "numThreads" in d then
      match parseInt(d["numThreads"])
      case None => Err(ValueError(d["numThreads"]))
      case Some(n) => Ok(n)
    else Ok(1)
  }

  /**
   * The three appends of one loop turn. The default of `get('Mean/thread', ...)` is
   * `parsedDict['Mean']`, evaluated before the call, so 'Mean' is read in every case.
   */
  function ReadRow(d: Dict, parseInt: string -> Option<int>, parseFloat: string -> Option<PyFloat>): (r: Result<Row, PyError>)
    ensures r.Ok? ==> r.value.x != 0 && ThreadCount(d, parseInt) == Ok(r.value.x)
    ensures r.Ok? ==> "Mean" in d && "Sdev" in d
  {
    match ThreadCount(d, parseInt)
    case Err(e) => Err(e)
    case Ok(x) =>
      if "Mean" !in d then Err(KeyError("Mean"))
      else
        var meanText := DropLastTwo(if "Mean/thread" in d then d["Mean/thread"] else d["Mean"]);
        match parseFloat(meanText)
        case None => Err(ValueError(meanText))
        case Some(y) =>
          if "Sdev" !in d then Err(KeyError("Sdev"))
          else
            var sdevText := DropLastTwo(d["Sdev"]);
            match parseFloat(sdevText)
            case None => Err(ValueError(sdevText))
            case Some(sdev) =>
              if x == 0 then Err(ZeroDivisionError) else Ok(Row(x, y, DivideByInt(sdev, x)))
  }

  /** 'Mean' is required even when 'Mean/thread' is present. */
  lemma MeanRequired(d: Dict, parseInt: string -> Option<int>, parseFloat: string -> Option<PyFloat>)
    requires ThreadCount(d, parseInt).Ok? && "Mean" !in d
    ensures ReadRow(d, parseInt, parseFloat) == Err(KeyError("Mean"))
  {
  }

  /**
   * A successful row's y comes from 'Mean/thread' when present and from 'Mean' otherwise, and
   * its error bar is Sdev divided by the thread count; both have their unit dropped first.
   */
  lemma RowValues(d: Dict, parseInt: string -> Option<int>, parseFloat: string -> Option<PyFloat>)
    requires ReadRow(d, parseInt, parseFloat).Ok?
    ensures var row := ReadRow(d, parseInt, parseFloat).value;
      && parseFloat(DropLastTwo(if "Mean/thread" in d then d["Mean/thread"] else d["Mean"])) == Some(row.y)
      && parseFloat(DropLastTwo(d["Sdev"])).Some?
      && row.err == DivideByInt(parseFloat(DropLastTwo(d["Sdev"])).value, row.x)
  {
  }

  /** Without 'numThreads' a file counts as one thread and its error bar is Sdev itself. */
  lemma SingleThreadDefault(d: Dict, parseInt: string -> Option<int>, parseFloat: string -> Option<PyFloat>)
    requires "numThreads" !in d && ReadRow(d, parseInt, parseFloat).Ok?
    ensures ReadRow(d, parseInt, parseFloat).value.x == 1
    ensures Some(ReadRow(d, parseInt, parseFloat).value.err) == parseFloat(DropLastTwo(d["Sdev"]))
  {
    RowValues(d, parseInt, parseFloat);
    DivideByOne(parseFloat(DropLastTwo(d["Sdev"])).value);
  }

  /** parse_file on one file followed by that file's three appends. */
  function FileRow(file: seq<string>, parseInt: string -> Option<int>, parseFloat: string -> Option<PyFloat>): Result<Row, PyError>
  {
    match ParseLines(file)
    case Err(e) => Err(e)
    case Ok(d) => ReadRow(d, parseInt, parseFloat)
  }

  /** The outcome of each file, in the order the loop visits them. */
  function FileRows(files: seq<seq<string>>, parseInt: string -> Option<int>, parseFloat: string -> Option<PyFloat>): (outcomes: seq<Result<Row, PyError>>)
    ensures |outcomes| == |files|
  {
    seq(|files|, i requires 0 <= i < |files| => FileRow(files[i], parseInt, parseFloat))
  }

  /** The rows of a run of outcomes, or the first error among them. */
  function Collect(outcomes: seq<Result<Row, PyError>>): Result<seq<Row>, PyError>
  {
    if outcomes == [] then Ok([])
    else
      match Collect(outcomes[..|outcomes| - 1])
      case Err(e) => Err(e)
      case Ok(rows) =>
        match outcomes[|outcomes| - 1]
        case Err(e) => Err(e)
        case Ok(row) => Ok(rows + [row])
  }

  /** The rows of the loop over all files, or the first error it raises. */
  function RowsOf(files: seq<seq<string>>, parseInt: string -> Option<int>, parseFloat: string -> Option<PyFloat>): Result<seq<Row>, PyError>
  {
    Collect(FileRows(files, parseInt, parseFloat))
  }

  /** Collecting succeeds with one row per outcome exactly when no outcome is an error. */
  lemma {:induction false} CollectPerOutcome(outcomes: seq<Result<Row, PyError>>)
    ensures Collect(outcomes).Ok? <==> forall i :: 0 <= i < |outcomes| ==> outcomes[i].Ok?
    ensures Collect(outcomes).Ok? ==>
      |Collect(outcomes).value| == |outcomes| &&
      forall i :: 0 <= i < |outcomes| ==> outcomes[i] == Ok(Collect(outcomes).value[i])
  {
    if outcomes != [] {
      var n := |outcomes| - 1;
      var front := outcomes[..n];
      CollectPerOutcome(front);
      assert forall j :: 0 <= j < n ==> front[j] == outcomes[j];
      if Collect(front).Err? {
        var j :| 0 <= j < n && !front[j].Ok?;
        assert !outcomes[j].Ok?;
      }
    }
  }

  /** The error of a failed collection is that of the first failing outcome. */
  lemma {:induction false} CollectFirstError(outcomes: seq<Result<Row, PyError>>, i: nat)
    requires i < |outcomes| && outcomes[i].Err?
    requires forall j :: 0 <= j < i ==> outcomes[j].Ok?
    ensures Collect(outcomes) == Err(outcomes[i].error)
  {
    var n := |outcomes| - 1;
    var front := outcomes[..n];
    assert forall j :: 0 <= j < n ==> front[j] == outcomes[j];
    if i < n {
      CollectFirstError(front, i);
    } else {
      CollectPerOutcome(front);
    }
  }

  lemma {:induction false} CollectPrefixErrorPersists(outcomes: seq<Result<Row, PyError>>, n: nat)
    requires n <= |outcomes| && Collect(outcomes[..n]).Err?
    ensures Collect(outcomes) == Collect(outcomes[..n])
    decreases |outcomes| - n
  {
    if n < |outcomes| {
      assert outcomes[..n + 1][..n] == outcomes[..n];
      CollectPrefixErrorPersists(outcomes, n + 1);
    } else {
      assert outcomes[..n] == outcomes;
    }
  }

  /**
   * The loop yields one row per file, in file order, exactly when every file parses and
   * reads; otherwise it raises the error of the first file that does not.
   */
  lemma RowsOfMeaning(files: seq<seq<string>>, parseInt: string -> Option<int>, parseFloat: string -> Option<PyFloat>)
    ensures RowsOf(files, parseInt, parseFloat).Ok? <==>
      forall i :: 0 <= i < |files| ==> FileRow(files[i], parseInt, parseFloat).Ok?
    ensures RowsOf(files, parseInt, parseFloat).Ok? ==>
      |RowsOf(files, parseInt, parseFloat).value| == |files| &&
      forall i :: 0 <= i < |files| ==> FileRow(files[i], parseInt, parseFloat) == Ok(RowsOf(files, parseInt, parseFloat).value[i])
    ensures forall i | 0 <= i < |files| && FileRow(files[i], parseInt, parseFloat).Err? &&
                       (forall j :: 0 <= j < i ==> FileRow(files[j], parseInt, parseFloat).Ok?) ::
              RowsOf(files, parseInt, parseFloat) == Err(FileRow(files[i], parseInt, parseFloat).error)
  {
    var outcomes := FileRows(files, parseInt, parseFloat);
    CollectPerOutcome(outcomes);
    if forall i :: 0 <= i < |files| ==> FileRow(files[i], parseInt, parseFloat).Ok? {
      forall i | 0 <= i < |outcomes| ensures outcomes[i].Ok? {
        assert outcomes[i] == FileRow(files[i], parseInt, parseFloat);
      }
      assert Collect(outcomes).Ok?;
    } else {
      var i :| 0 <= i < |files| && !FileRow(files[i], parseInt, parseFloat).Ok?;
      assert !outcomes[i].Ok?;
      assert !Collect(outcomes).Ok?;
    }
    forall i | 0 <= i < |files| && FileRow(files[i], parseInt, parseFloat).Err? &&
               (forall j :: 0 <= j < i ==> FileRow(files[j], parseInt, parseFloat).Ok?)
      ensures RowsOf(files, parseInt, parseFloat) == Err(FileRow(files[i], parseInt, parseFloat).error)
    {
      CollectFirstError(outcomes, i);
    }
  }

  // ---------------------------------------------------------------------------------------
  // extract_arrays_threaded: columns, the NaN filter and the sort

  /** `zip(*rows)`: the three columns, index-aligned. */
  function Columns(rows: seq<Row>): (c: (seq<int>, seq<PyFloat>, seq<PyFloat>))
    ensures |c.0| == |rows| && |c.1| == |rows| && |c.2| == |rows|
  {
    (seq(|rows|, i requires 0 <= i < |rows| => rows[i].x),
     seq(|rows|, i requires 0 <= i < |rows| => rows[i].y),
     seq(|rows|, i requires 0 <= i < |rows| => rows[i].err))
  }

  /** `zip(x, y, sdev)`: the rows of three columns of equal length. */
  function Zip(xs: seq<int>, ys: seq<PyFloat>, errs: seq<PyFloat>): (rows: seq<Row>)
    requires |xs| == |ys| == |errs|
    ensures |rows| == |xs|
  {
    seq(|xs|, i requires 0 <= i < |xs| => Row(xs[i], ys[i], errs[i]))
  }

  /** Zipping the columns gives back the rows: every (x, y, err) triple stays together. */
  lemma ZipColumns(rows: seq<Row>)
    ensures Zip(Columns(rows).0, Columns(rows).1, Columns(rows).2) == rows
  {
  }

  lemma ColumnsAppend(rows: seq<Row>, row: Row)
    ensures Columns(rows + [row]) ==
      (Columns(rows).0 + [row.x], Columns(rows).1 + [row.y], Columns(rows).2 + [row.err])
  {
    var c, c' := Columns(rows), Columns(rows + [row]);
    assert c'.0 == c.0 + [row.x];
    assert c'.1 == c.1 + [row.y];
    assert c'.2 == c.2 + [row.err];
  }

  /** The comprehension of line 44: rows whose y is not NaN, in their original order. */
  function NonNaN(rows: seq<Row>): (r: seq<Row>)
    ensures |r| <= |rows|
    ensures forall i :: 0 <= i < |r| ==> !r[i].y.NaN?
  {
    if rows == [] then []
    else (if rows[0].y.NaN? then [] else [rows[0]]) + NonNaN(rows[1..])
  }

  /** The filter keeps exactly the rows whose y is a number or an infinity. */
  lemma {:induction false} NonNaNKeeps(rows: seq<Row>)
    ensures forall row :: row in NonNaN(rows) <==> row in rows && !row.y.NaN?
  {
    if rows != [] {
      NonNaNKeeps(rows[1..]);
      assert rows == [rows[0]] + rows[1..];
    }
  }

  /** Every row is dropped exactly when every y is NaN. */
  lemma AllNaNEmpties(rows: seq<Row>)
    ensures NonNaN(rows) == [] <==> forall i :: 0 <= i < |rows| ==> rows[i].y.NaN?
  {
    NonNaNKeeps(rows);
    if NonNaN(rows) != [] {
      assert NonNaN(rows)[0] in NonNaN(rows);
    }
  }

  predicate SortedByX(rows: seq<Row>)
  {
    forall i, j :: 0 <= i < j < |rows| ==> rows[i].x <= rows[j].x
  }

  /** The rows with thread count `k`, in order. */
  function WithX(rows: seq<Row>, k: int): seq<Row>
  {
    if rows == [] then []
    else (if rows[0].x == k then [rows[0]] else []) + WithX(rows[1..], k)
  }

  /** Insert before the first row whose x is not smaller, so equal keys keep their order. */
  function InsertByX(row: Row, rows: seq<Row>): seq<Row>
  {
    if rows == [] || row.x <= rows[0].x then [row] + rows
    else [rows[0]] + InsertByX(row, rows[1..])
  }

  /** `sorted(rows, key = itemgetter(0))`, a stable sort on the thread count. */
  function SortByX(rows: seq<Row>): seq<Row>
  {
    if rows == [] then [] else InsertByX(rows[0], SortByX(rows[1..]))
  }

  lemma {:induction false} InsertByXSorted(row: Row, rows: seq<Row>)
    requires SortedByX(rows)
    ensures SortedByX(InsertByX(row, rows))
    ensures InsertByX(row, rows)[0] == row || (rows != [] && InsertByX(row, rows)[0] == rows[0])
  {
    if rows != [] && row.x > rows[0].x {
      InsertByXSorted(row, rows[1..]);
      var tail := InsertByX(row, rows[1..]);
      assert rows[0].x <= tail[0].x;
      ConsSorted(rows[0], tail);
    }
  }

  lemma ConsSorted(first: Row, rows: seq<Row>)
    requires SortedByX(rows) && (rows != [] ==> first.x <= rows[0].x)
    ensures SortedByX([first] + rows)
  {
    var s := [first] + rows;
    forall i, j | 0 <= i < j < |s| ensures s[i].x <= s[j].x {
      if i == 0 {
        assert s[j] == rows[j - 1];
      } else {
        assert s[i] == rows[i - 1] && s[j] == rows[j - 1];
      }
    }
  }

  lemma {:induction false} InsertByXCount(row: Row, rows: seq<Row>)
    ensures multiset(InsertByX(row, rows)) == multiset(rows) + multiset{row}
  {
    if rows != [] && row.x > rows[0].x {
      InsertByXCount(row, rows[1..]);
      assert rows == [rows[0]] + rows[1..];
    }
  }

  lemma {:induction false} InsertByXStable(row: Row, rows: seq<Row>, k: int)
    ensures WithX(InsertByX(row, rows), k) == (if row.x == k then [row] else []) + WithX(rows, k)
  {
    var mine: seq<Row> := if row.x == k then [row] else [];
    if rows != [] && row.x > rows[0].x {
      var tail := InsertByX(row, rows[1..]);
      InsertByXStable(row, rows[1..], k);
      WithXCons(rows[0], tail, k);
      WithXCons(rows[0], rows[1..], k);
      assert rows == [rows[0]] + rows[1..];
    } else {
      WithXCons(row, rows, k);
    }
  }

  lemma WithXCons(first: Row, rows: seq<Row>, k: int)
    ensures WithX([first] + rows, k) == (if first.x == k then [first] else []) + WithX(rows, k)
  {
    assert ([first] + rows)[1..] == rows;
  }

  /** The sort orders by x and rearranges nothing but the order. */
  lemma {:induction false} SortByXSorted(rows: seq<Row>)
    ensures SortedByX(SortByX(rows))
  {
    if rows != [] {
      SortByXSorted(rows[1..]);
      InsertByXSorted(rows[0], SortByX(rows[1..]));
    }
  }

  lemma {:induction false} SortByXPermutes(rows: seq<Row>)
    ensures multiset(SortByX(rows)) == multiset(rows)
  {
    if rows != [] {
      SortByXPermutes(rows[1..]);
      InsertByXCount(rows[0], SortByX(rows[1..]));
      assert rows == [rows[0]] + rows[1..];
    }
  }

  /** Stability: the rows of each thread count come out in the order they went in. */
  lemma {:induction false} SortByXStable(rows: seq<Row>, k: int)
    ensures WithX(SortByX(rows), k) == WithX(rows, k)
  {
    if rows != [] {
      SortByXStable(rows[1..], k);
      InsertByXStable(rows[0], SortByX(rows[1..]), k);
    }
  }

  /** Lines 44-46 on the rows of all files: an error when every y is NaN, else the series. */
  function Series(rows: seq<Row>): Result<(seq<int>, seq<PyFloat>, seq<PyFloat>), PyError>
  {
    var kept := NonNaN(rows);
    if kept == [] then Err(UnpackError(0)) else Ok(Columns(SortByX(kept)))
  }

  /** The series fails exactly when every y is NaN. */
  lemma SeriesFails(rows: seq<Row>)
    ensures Series(rows).Err? <==> forall i :: 0 <= i < |rows| ==> rows[i].y.NaN?
  {
    AllNaNEmpties(rows);
  }

  /**
   * A series has three columns of the same positive length, x ascends and no y is NaN, and
   * its (x, y, err) triples are the non-NaN rows, stably sorted by x.
   */
  lemma SeriesShape(rows: seq<Row>)
    requires Series(rows).Ok?
    ensures var (xs, ys, errs) := Series(rows).value;
      && 0 < |xs| == |ys| == |errs|
      && (forall i, j :: 0 <= i < j < |xs| ==> xs[i] <= xs[j])
      && (forall i :: 0 <= i < |ys| ==> !ys[i].NaN?)
      && multiset(Zip(xs, ys, errs)) == multiset(NonNaN(rows))
      && (forall k :: WithX(Zip(xs, ys, errs), k) == WithX(NonNaN(rows), k))
  {
    var kept := NonNaN(rows);
    var sorted := SortByX(kept);
    SortedRowsSeries(kept, sorted);
    forall k ensures WithX(sorted, k) == WithX(kept, k) {
      SortByXStable(kept, k);
    }
  }

  lemma SortedRowsSeries(kept: seq<Row>, sorted: seq<Row>)
    requires kept != [] && forall i :: 0 <= i < |kept| ==> !kept[i].y.NaN?
    requires sorted == SortByX(kept)
    ensures sorted != [] && SortedByX(sorted) && multiset(sorted) == multiset(kept)
    ensures forall i :: 0 <= i < |sorted| ==> !sorted[i].y.NaN?
    ensures Zip(Columns(sorted).0, Columns(sorted).1, Columns(sorted).2) == sorted
  {
    SortByXSorted(kept);
    SortByXPermutes(kept);
    ZipColumns(sorted);
    forall i | 0 <= i < |sorted| ensures !sorted[i].y.NaN? {
      assert sorted[i] in multiset(kept);
      var j :| 0 <= j < |kept| && kept[j] == sorted[i];
    }
    assert kept[0] in multiset(sorted);
  }

  /** extract_arrays_threaded over the contents of the given files. */
  method ExtractArraysThreaded(listf: seq<seq<string>>, parseInt: string -> Option<int>, parseFloat: string -> Option<PyFloat>)
    returns (r: Result<(seq<int>, seq<PyFloat>, seq<PyFloat>), PyError>)
    ensures RowsOf(listf, parseInt, parseFloat).Err? ==> r == Err(RowsOf(listf, parseInt, parseFloat).error)
    ensures RowsOf(listf, parseInt, parseFloat).Ok? ==> r == Series(RowsOf(listf, parseInt, parseFloat).value)
  {
    ghost var outcomes := FileRows(listf, parseInt, parseFloat);
    var x: seq<int>, y: seq<PyFloat>, sdev: seq<PyFloat> := [], [], [];
    for i := 0 to |listf|
      invariant Collect(outcomes[..i]).Ok?
      invariant Columns(Collect(outcomes[..i]).value) == (x, y, sdev)
    {
      assert outcomes[..i + 1][..i] == outcomes[..i];
      assert outcomes[i] == FileRow(listf[i], parseInt, parseFloat);
      var parsedDict := ParseFile(listf[i]);
      if parsedDict.Err? {
        CollectPrefixErrorPersists(outcomes, i + 1);
        return Err(parsedDict.error);
      }
      var row := ReadRow(parsedDict.value, parseInt, parseFloat);
      if row.Err? {
        CollectPrefixErrorPersists(outcomes, i + 1);
        return Err(row.error);
      }
      ColumnsAppend(Collect(outcomes[..i]).value, row.value);
      x, y, sdev := x + [row.value.x], y + [row.value.y], sdev + [row.value.err];
    }
    assert outcomes[..|listf|] == outcomes;
    ZipColumns(RowsOf(listf, parseInt, parseFloat).value);
    var kept := NonNaN(Zip(x, y, sdev));
    if kept == [] {
      return Err(UnpackError(0));
    }
    return Ok(Columns(SortByX(kept)));
  }

  // ---------------------------------------------------------------------------------------
  // The readstore file partition

  /**
   * Lines 97-100: names containing "png" are dropped; the rest split into the 'Contig' runs
   * and the remaining (random) runs.
   */
  function ReadstorePartition(files: set<string>): (r: (set<string>, set<string>))
    ensures r.0 !! r.1
    ensures r.0 + r.1 == set f | f in files && !HasSubstring(f, "png")
    ensures forall f :: f in r.0 ==> HasSubstring(f, "Contig")
    ensures forall f :: f in r.1 ==> !HasSubstring(f, "Contig")
  {
    var kept := set f | f in files && !HasSubstring(f, "png");
    var contig := set f | f in kept && HasSubstring(f, "Contig");
    (contig, kept - contig)
  }
}
