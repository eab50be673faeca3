/**
 * The text side of reading a climate-station file (resources/io.py): the
 * number at the end of a header line (`convert_to_number`), the
 * classification of one header line (`_parse_line_table`) and the loop of
 * `import_table` that scans every line for metadata and for the line where
 * the table starts.
 */
module StationIo {
  import opened Wrappers
  import opened Strings

  /** Digits with at most one '.' among them: `[0-9]*\.?[0-9]*`. */
  predicate Unsigned(t: string)
  {
    && (forall i :: 0 <= i < |t| ==> IsDigit(t[i]) || t[i] == '.')
    && (forall i, j :: 0 <= i < j < |t| && t[i] == '.' ==> t[j] != '.')
  }

  /** A text matched in full by `[\-]?[0-9]*\.?[0-9]*`. */
  predicate NumberText(t: string)
  {
    if |t| > 0 && t[0] == '-' then Unsigned(t[1..]) else Unsigned(t)
  }

  /** Where `$` matches last: the end, or just before a final newline. */
  function TextEnd(s: string): (e: nat)
    ensures e <= |s|
    ensures e == |s| || (e == |s| - 1 && s[e] == '\n')
  {
    if |s| > 0 && s[|s| - 1] == '\n' then |s| - 1 else |s|
  }

  /** The first position at or after i from which the rest of t is a number text. */
  function FirstMatch(t: string, i: nat): (k: nat)
    requires i <= |t|
    ensures i <= k <= |t|
    ensures NumberText(t[k..])
    ensures forall j :: i <= j < k ==> !NumberText(t[j..])
    decreases |t| - i
  {
    if NumberText(t[i..]) then i
    else FirstMatch(t, i + 1)
  }

  /**
   * `convert_to_number(s, type=str)`: the text that
   * `re.search(r'[\-]?[0-9]*\.?[0-9]*$', s)` matches. The search takes the
   * leftmost start, so the text is the longest number-shaped suffix of `s`
   * (of `s` without its final newline, if it has one), possibly empty.
   */
  function ConvertToNumber(s: string): (r: string)
    ensures NumberText(r)
    ensures |r| <= TextEnd(s) && r == s[TextEnd(s) - |r|..TextEnd(s)]
    ensures forall j :: 0 <= j < TextEnd(s) - |r| ==> !NumberText(s[j..TextEnd(s)])
  {
    var t := s[..TextEnd(s)];
    var k := FirstMatch(t, 0);
    assert forall j :: 0 <= j <= |t| ==> t[j..] == s[j..TextEnd(s)];
    t[k..]
  }

  /** A tail "1.2.3" has two dots, so only "2.3" is taken. */
  lemma ConvertTakesLastNumber()
    ensures ConvertToNumber("1.2.3") == "2.3"
  {
    var s := "1.2.3";
    assert s[1] == '.' && s[3] == '.';
    assert !NumberText(s[0..]) by { assert s[0..][1] == '.' && s[0..][3] == '.'; }
    assert !NumberText(s[1..]) by { assert s[1..][0] == '.' && s[1..][2] == '.'; }
    assert NumberText(s[2..]);
    assert FirstMatch(s, 0) == 2;
    assert s[..TextEnd(s)] == s;
  }

  /**
   * When the text (without a final newline) ends in a character that is
   * neither a digit, nor '.', nor '-', no non-empty suffix is a number text
   * and the result is empty.
   */
  lemma ConvertNoTrailingNumber(s: string)
    requires TextEnd(s) > 0
    requires var c := s[TextEnd(s) - 1]; !IsDigit(c) && c != '.' && c != '-'
    ensures ConvertToNumber(s) == ""
  {
    var t := s[..TextEnd(s)];
    forall j | 0 <= j < |t| ensures !NumberText(t[j..]) {
      assert t[j..][|t[j..]| - 1] == t[|t| - 1];
      NotNumberEnding(t[j..]);
    }
    assert FirstMatch(t, 0) == |t|;
  }

  /** A text ending in a character outside `[0-9.-]` is not a number text. */
  lemma NotNumberEnding(x: string)
    requires |x| > 0
    requires var c := x[|x| - 1]; !IsDigit(c) && c != '.' && c != '-'
    ensures !NumberText(x)
  {
    if |x| > 1 && x[0] == '-' {
      assert x[1..][|x| - 2] == x[|x| - 1];
    }
  }

  /** `s.replace('\n', '')`. */
  function RemoveNewlines(s: string): (r: string)
    ensures '\n' !in r
    ensures |r| <= |s|
  {
    if s == [] then []
    else (if s[0] == '\n' then [] else [s[0]]) + RemoveNewlines(s[1..])
  }

  /**
   * Removing newlines works piece by piece: with `RemoveNewlinesKeeps` and
   * `RemoveNewlinesDropsNewline` this fixes every other character in place
   * and in order.
   */
  lemma {:induction false} RemoveNewlinesAppend(a: string, b: string)
    ensures RemoveNewlines(a + b) == RemoveNewlines(a) + RemoveNewlines(b)
  {
    if a != [] {
      assert (a + b)[0] == a[0] && (a + b)[1..] == a[1..] + b;
      RemoveNewlinesAppend(a[1..], b);
    } else {
      assert a + b == b;
    }
  }

  /** A newline on its own is removed. */
  lemma RemoveNewlinesDropsNewline()
    ensures RemoveNewlines("\n") == ""
  {
  }

  /** A line ending in a newline loses just that newline when the rest has none. */
  lemma RemoveFinalNewline(s: string)
    requires '\n' !in s
    ensures RemoveNewlines(s + "\n") == s
  {
    RemoveNewlinesAppend(s, "\n");
    RemoveNewlinesKeeps(s);
  }

  /**
   * `float(t)` accepts a number text exactly when it holds a digit: "", "-",
   * "." and "-." are refused with ValueError.
   */
  predicate HasDigit(t: string)
  {
    exists i :: 0 <= i < |t| && IsDigit(t[i])
  }

  /**
   * What `_parse_line_table` returns: a one-entry dict (`Record`), True for
   * the line where the table starts, or None. A number is kept as the text
   * `float` parses.
   */
  datatype Parsed = Record(key: string, value: string) | TableStart | NoMatch

  /** The exception `float` raises on a text without digits. */
  datatype ParseError = ValueError

  /** Which of the prefix tests of `_parse_line_table` fires first on a line. */
  datatype LineKind = CodeLine | LatitudeLine | LongitudeLine | AltitudeLine | TableLine | OtherLine

  /** The `re.match` tests of `_parse_line_table`, tried in order at the start of the line. */
  function Kind(line: string): (k: LineKind)
    ensures k == CodeLine ==> StartsWith(line, "Codigo Estacao")
    ensures k == LatitudeLine ==> StartsWith(line, "Latitude")
    ensures k == LongitudeLine ==> StartsWith(line, "Longitude")
    ensures k == AltitudeLine ==> StartsWith(line, "Altitude")
    ensures k == TableLine ==> StartsWith(line, "Data Medicao")
    ensures k == OtherLine <==>
      !StartsWith(line, "Codigo Estacao") && !StartsWith(line, "Latitude") && !StartsWith(line, "Longitude")
      && !StartsWith(line, "Altitude") && !StartsWith(line, "Data Medicao")
  {
    if StartsWith(line, "Codigo Estacao") then CodeLine
    else if StartsWith(line, "Latitude") then LatitudeLine
    else if StartsWith(line, "Longitude") then LongitudeLine
    else if StartsWith(line, "Altitude") then AltitudeLine
    else if StartsWith(line, "Data Medicao") then TableLine
    else OtherLine
  }

  /**
   * The five prefixes exclude one another, so the order of the tests does
   * not matter: a line is of a kind exactly when it starts with that kind's
   * prefix, and of no kind when it starts with none of them.
   */
  lemma KindByPrefix(line: string)
    ensures Kind(line) == CodeLine <==> StartsWith(line, "Codigo Estacao")
    ensures Kind(line) == LatitudeLine <==> StartsWith(line, "Latitude")
    ensures Kind(line) == LongitudeLine <==> StartsWith(line, "Longitude")
    ensures Kind(line) == AltitudeLine <==> StartsWith(line, "Altitude")
    ensures Kind(line) == TableLine <==> StartsWith(line, "Data Medicao")
  {
    var c, l, g, a, d := "Codigo Estacao", "Latitude", "Longitude", "Altitude", "Data Medicao";
    if StartsWith(line, c) { assert line[0] == c[0]; }
    if StartsWith(line, l) { assert line[0] == l[0] && line[1] == l[1]; }
    if StartsWith(line, g) { assert line[0] == g[0] && line[1] == g[1]; }
    if StartsWith(line, a) { assert line[0] == a[0]; }
    if StartsWith(line, d) { assert line[0] == d[0]; }
  }

  /** The value text of a header line: the number at its end, once its newlines are removed. */
  function HeaderValue(line: string): string
  {
    ConvertToNumber(RemoveNewlines(line))
  }

  /**
   * A line whose value goes through `float`: it gives the record of `key`
   * with the line's value text exactly when `float` accepts that text.
   */
  function NumericRecord(key: string, line: string): (r: Result<Parsed, ParseError>)
    ensures r.Ok? <==> HasDigit(HeaderValue(line))
    ensures r.Ok? ==> r.value == Record(key, HeaderValue(line))
    ensures r.Err? ==> r.error == ValueError
  {
    var v := HeaderValue(line);
    if HasDigit(v) then Ok(Record(key, v)) else Err(ValueError)
  }

  /**
   * `_parse_line_table`. A record's key is one of four, and the value of a
   * numeric record holds a digit; `ParseLineOutcomes` says which line gives
   * which outcome.
   */
  function ParseLineTable(line: string): (r: Result<Parsed, ParseError>)
    ensures r.Ok? && r.value.Record? ==>
      && r.value.key in {"Code", "Latitude", "Longitude", "Height"}
      && (r.value.key != "Code" ==> HasDigit(r.value.value))
  {
    match Kind(line)
    case CodeLine => Ok(Record("Code", HeaderValue(line)))
    case LatitudeLine => NumericRecord("Latitude", line)
    case LongitudeLine => NumericRecord("Longitude", line)
    case AltitudeLine => NumericRecord("Height", line)
    case TableLine => Ok(TableStart)
    case OtherLine => Ok(NoMatch)
  }

  /**
   * Only a Latitude, Longitude or Altitude line can raise; the table line
   * gives True, a line of no kind gives None, and a record is keyed "Code"
   * exactly for a "Codigo Estacao" line.
   */
  lemma ParseLineOutcomes(line: string)
    ensures ParseLineTable(line).Err? ==> Kind(line) in {LatitudeLine, LongitudeLine, AltitudeLine}
    ensures ParseLineTable(line) == Ok(TableStart) <==> Kind(line) == TableLine
    ensures ParseLineTable(line) == Ok(NoMatch) <==> Kind(line) == OtherLine
    ensures ParseLineTable(line).Ok? && ParseLineTable(line).value.Record? ==>
      (ParseLineTable(line).value.key == "Code" <==> Kind(line) == CodeLine)
  {
  }

  /** A text without newlines is left as it is. */
  lemma {:induction false} RemoveNewlinesKeeps(s: string)
    requires '\n' !in s
    ensures RemoveNewlines(s) == s
  {
    if s != [] {
      assert s == [s[0]] + s[1..];
      RemoveNewlinesKeeps(s[1..]);
    }
  }

  /**
   * The record each header line gives: "Codigo Estacao" the code text, and
   * "Latitude", "Longitude" and "Altitude" the keys "Latitude", "Longitude"
   * and "Height", each with the line's value text, raising ValueError
   * exactly when that text holds no digit.
   */
  lemma ParseLineRecords(line: string)
    ensures var v, p := HeaderValue(line), ParseLineTable(line);
      && (Kind(line) == CodeLine ==> p == Ok(Record("Code", v)))
      && (Kind(line) == LatitudeLine ==> (p.Ok? <==> HasDigit(v)) && (p.Ok? ==> p.value == Record("Latitude", v)))
      && (Kind(line) == LongitudeLine ==> (p.Ok? <==> HasDigit(v)) && (p.Ok? ==> p.value == Record("Longitude", v)))
      && (Kind(line) == AltitudeLine ==> (p.Ok? <==> HasDigit(v)) && (p.Ok? ==> p.value == Record("Height", v)))
  {
  }

  /** A header line whose value has no number makes the parse raise ValueError. */
  lemma LatitudeWithoutNumber()
    ensures ParseLineTable("Latitude:") == Err(ValueError)
  {
    var line := "Latitude:";
    assert StartsWith(line, "Latitude") by { assert line[..8] == "Latitude"; }
    KindByPrefix(line);
    assert Kind(line) == LatitudeLine;
    assert '\n' !in line;
    RemoveNewlinesKeeps(line);
    assert TextEnd(line) == 9 && line[8] == ':';
    ConvertNoTrailingNumber(line);
    assert !HasDigit("");
  }

  /** The outcome of `_parse_line_table` is a record for `key`. */
  predicate RecordFor(p: Result<Parsed, ParseError>, key: string)
  {
    p.Ok? && p.value.Record? && p.value.key == key
  }

  /** `_parse_line_table` applied to every line. */
  function ParseAll(lines: seq<string>): (parsed: seq<Result<Parsed, ParseError>>)
    ensures |parsed| == |lines|
    ensures forall i :: 0 <= i < |lines| ==> parsed[i] == ParseLineTable(lines[i])
  {
    seq(|lines|, i requires 0 <= i < |lines| => ParseLineTable(lines[i]))
  }

  /**
   * The variables of the scan loop: the metadata dict, `table_found`, and
   * `skiprows`, which stays unbound (None) until a table line is seen.
   */
  datatype ScanState = ScanState(meta: map<string, string>, tableFound: bool, skipRows: Option<nat>)

  /** One turn of the loop on line number `counter`, whose parse outcome is `p`. */
  function ScanLine(st: ScanState, counter: nat, p: Result<Parsed, ParseError>): (r: Result<ScanState, ParseError>)
    ensures r.Err? <==> p.Err?
    ensures r.Ok? ==> st.meta.Keys <= r.value.meta.Keys
    ensures r.Ok? && p.value.Record? ==> r.value.meta == st.meta[p.value.key := p.value.value]
    ensures r.Ok? && p.value.TableStart? ==> r.value.tableFound && r.value.skipRows == Some(counter)
    ensures r.Ok? && !p.value.TableStart? ==> r.value.tableFound == st.tableFound && r.value.skipRows == st.skipRows
  {
    match p
    case Err(e) => Err(e)
    case Ok(Record(key, value)) => Ok(st.(meta := st.meta[key := value]))
    case Ok(TableStart) => Ok(st.(tableFound := true, skipRows := Some(counter)))
    case Ok(NoMatch) => Ok(st)
  }

  /**
   * The state after the loop has gone through lines with parse outcomes
   * `parsed`, or the exception it stopped on.
   */
  function ScanParsed(parsed: seq<Result<Parsed, ParseError>>): (r: Result<ScanState, ParseError>)
    ensures r.Ok? ==> (r.value.tableFound <==> r.value.skipRows.Some?)
    ensures r.Ok? && r.value.skipRows.Some? ==> r.value.skipRows.value < |parsed|
  {
    if parsed == [] then Ok(ScanState(map[], false, None))
    else
      match ScanParsed(parsed[..|parsed| - 1])
      case Err(e) => Err(e)
      case Ok(st) => ScanLine(st, |parsed| - 1, parsed[|parsed| - 1])
  }

  function Scan(lines: seq<string>): (r: Result<ScanState, ParseError>)
    ensures r.Ok? ==> (r.value.tableFound <==> r.value.skipRows.Some?)
    ensures r.Ok? && r.value.skipRows.Some? ==> r.value.skipRows.value < |lines|
  {
    ScanParsed(ParseAll(lines))
  }

  /** The scan loop of `import_table` over the lines of the file. */
  method ScanHeader(lines: seq<string>) returns (r: Result<ScanState, ParseError>)
    ensures r == Scan(lines)
  {
    ghost var parsedAll := ParseAll(lines);
    var meta: map<string, string> := map[];
    var tableFound := false;
    var skipRows: Option<nat> := None;
    for counter := 0 to |lines|
      invariant ScanParsed(parsedAll[..counter]) == Ok(ScanState(meta, tableFound, skipRows))
    {
      assert parsedAll[..counter + 1][..counter] == parsedAll[..counter];
      var parsed := ParseLineTable(lines[counter]);
      assert parsed == parsedAll[counter];
      if parsed.Err? {
        ScanErrorPersists(parsedAll, counter + 1);
        return Err(parsed.error);
      }
      match parsed.value
      case Record(key, value) =>
        meta := meta[key := value];
      case TableStart =>
        skipRows := Some(counter);
        tableFound := true;
      case NoMatch =>
    }
    assert parsedAll[..|lines|] == parsedAll;
    r := Ok(ScanState(meta, tableFound, skipRows));
  }

  /** Once a line raises, its exception is what the whole scan raises. */
  lemma {:induction false} ScanErrorPersists(parsed: seq<Result<Parsed, ParseError>>, n: nat)
    requires 0 < n <= |parsed| && ScanParsed(parsed[..n]).Err?
    ensures ScanParsed(parsed) == ScanParsed(parsed[..n])
    decreases |parsed| - n
  {
    if n < |parsed| {
      assert parsed[..n + 1][..n] == parsed[..n];
      ScanErrorPersists(parsed, n + 1);
    } else {
      assert parsed[..n] == parsed;
    }
  }

  /** The scan raises exactly when some line raises. */
  lemma {:induction false} ScanFails(parsed: seq<Result<Parsed, ParseError>>)
    ensures ScanParsed(parsed).Err? <==> exists i :: 0 <= i < |parsed| && parsed[i].Err?
  {
    if parsed != [] {
      var n := |parsed| - 1;
      var init := parsed[..n];
      ScanFails(init);
      if ScanParsed(parsed).Err? {
        if ScanParsed(init).Err? {
          var i :| 0 <= i < |init| && init[i].Err?;
          assert parsed[i] == init[i];
        } else {
          assert parsed[n].Err?;
        }
      } else {
        assert ScanParsed(init).Ok?;
        forall i | 0 <= i < |parsed| ensures parsed[i].Ok? {
          if i < n {
            assert parsed[i] == init[i];
          }
        }
      }
    }
  }

  /**
   * `table_found` is set exactly when some line is the table line, and
   * then `skiprows` is the index of the last such line.
   */
  lemma {:induction false} ScanTable(parsed: seq<Result<Parsed, ParseError>>)
    requires ScanParsed(parsed).Ok?
    ensures var st := ScanParsed(parsed).value;
      && (st.tableFound <==> exists i :: 0 <= i < |parsed| && parsed[i] == Ok(TableStart))
      && (st.tableFound <==> st.skipRows.Some?)
      && (st.skipRows.Some? ==>
            && st.skipRows.value < |parsed|
            && parsed[st.skipRows.value] == Ok(TableStart)
            && forall j :: st.skipRows.value < j < |parsed| ==> parsed[j] != Ok(TableStart))
  {
    if parsed != [] {
      var init := parsed[..|parsed| - 1];
      assert ScanParsed(init).Ok?;
      ScanTable(init);
      forall i | 0 <= i < |init| ensures init[i] == parsed[i] { }
    }
  }

  /** Line i gives `key` the value `value`, and no later line gives `key` a value. */
  predicate LastRecord(parsed: seq<Result<Parsed, ParseError>>, i: int, key: string, value: string)
  {
    && 0 <= i < |parsed|
    && parsed[i] == Ok(Record(key, value))
    && forall j :: i < j < |parsed| ==> !RecordFor(parsed[j], key)
  }

  /**
   * The metadata holds exactly the keys some line gave a record for, each
   * with the value of the last such line: a later line overwrites an
   * earlier one.
   */
  lemma {:induction false} ScanLastRecordWins(parsed: seq<Result<Parsed, ParseError>>)
    requires ScanParsed(parsed).Ok?
    ensures var meta := ScanParsed(parsed).value.meta;
      && (forall key :: key in meta <==> exists i :: 0 <= i < |parsed| && RecordFor(parsed[i], key))
      && (forall key :: key in meta ==> exists i :: LastRecord(parsed, i, key, meta[key]))
  {
    if parsed != [] {
      var init := parsed[..|parsed| - 1];
      var last := parsed[|parsed| - 1];
      assert ScanParsed(init).Ok?;
      ScanLastRecordWins(init);
      forall i | 0 <= i < |init| ensures init[i] == parsed[i] { }
      var meta0 := ScanParsed(init).value.meta;
      var meta := ScanParsed(parsed).value.meta;
      forall key | key in meta
        ensures exists i :: LastRecord(parsed, i, key, meta[key])
      {
        if RecordFor(last, key) {
          assert LastRecord(parsed, |parsed| - 1, key, meta[key]);
        } else {
          assert key in meta0 && meta[key] == meta0[key];
          var i :| LastRecord(init, i, key, meta0[key]);
          assert LastRecord(parsed, i, key, meta[key]);
        }
      }
    }
  }

  /**
   * Over the lines of a file: the scan raises exactly when a line's parse
   * raises, `table_found` tells whether a line starts with "Data Medicao"
   * and `skiprows` is the last such line, and the metadata keys are among
   * "Code", "Latitude", "Longitude" and "Height".
   */
  lemma ScanLines(lines: seq<string>)
    ensures Scan(lines).Err? <==> exists i :: 0 <= i < |lines| && ParseLineTable(lines[i]).Err?
    ensures Scan(lines).Ok? ==>
      var st := Scan(lines).value;
      && (st.tableFound <==> exists i :: 0 <= i < |lines| && StartsWith(lines[i], "Data Medicao"))
      && (st.skipRows.Some? ==>
            && st.skipRows.value < |lines|
            && StartsWith(lines[st.skipRows.value], "Data Medicao")
            && forall j :: st.skipRows.value < j < |lines| ==> !StartsWith(lines[j], "Data Medicao"))
      && st.meta.Keys <= {"Code", "Latitude", "Longitude", "Height"}
  {
    var parsed := ParseAll(lines);
    ScanFails(parsed);
    if Scan(lines).Ok? {
      ScanTable(parsed);
      ScanLastRecordWins(parsed);
      forall i | 0 <= i < |lines|
        ensures parsed[i] == Ok(TableStart) <==> StartsWith(lines[i], "Data Medicao")
      {
        ParseLineOutcomes(lines[i]);
        KindByPrefix(lines[i]);
      }
      var meta := Scan(lines).value.meta;
      forall key | key in meta ensures key in {"Code", "Latitude", "Longitude", "Height"} {
        var i :| 0 <= i < |parsed| && RecordFor(parsed[i], key);
      }
    }
  }
}
