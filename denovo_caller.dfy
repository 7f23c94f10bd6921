/** Candidate positions read from a calls file, one `chromosome,position[,...]` line each. */
module DenovoCaller {
  import opened Wrappers
  import opened JavaText

  /** CallHolder: a candidate call position. */
  datatype CallHolder = CallHolder(chromosome: string, position: int)

  /** ParseException for a short line, NumberFormatException for a bad position. */
  datatype ParseError = ParseException(message: string) | NumberFormatException(field: string)

  /**
   * parseLine: split on ',' the way String.split does; fewer than two fields is a
   * ParseException, the second field must be a `long`, and any further fields are ignored.
   */
  function ParseLine(line: string): (r: Result<CallHolder, ParseError>)
    ensures |JavaSplit(line, ',')| < 2 <==> r == Err(ParseException("Could not parse line : " + line))
    ensures var f := JavaSplit(line, ',');
      |f| >= 2 ==> (ParseLong(f[1]).None? <==> r == Err(NumberFormatException(f[1])))
    ensures r.Err? && r.error.NumberFormatException? ==> |JavaSplit(line, ',')| >= 2
    ensures r.Ok? ==> ',' !in r.value.chromosome && InLongRange(r.value.position)
  {
    var splitLine := JavaSplit(line, ',');
    if |splitLine| < 2 then Err(ParseException("Could not parse line : " + line))
    else
      match ParseLong(splitLine[1])
      case None => Err(NumberFormatException(splitLine[1]))
      case Some(candidatePosition) => Ok(CallHolder(splitLine[0], candidatePosition))
  }

  /** The cases that fail: no comma, and a trailing comma (String.split drops the empty tail). */
  lemma ParseLineShortLines()
    ensures ParseLine("chr1").Err? && ParseLine("chr1,").Err? && ParseLine("").Err?
  {
    assert JavaSplit("chr1", ',') == ["chr1"];
    SplitOnPrefix("chr1", ',', "");
    assert "chr1," == "chr1" + [','] + "";
    assert JavaSplit("chr1,", ',') == ["chr1"];
  }

  /** A position that is not a number is Long.parseLong's NumberFormatException. */
  lemma ParseLineBadPosition()
    ensures ParseLine("chr1,x") == Err(NumberFormatException("x"))
  {
    var line := "chr1" + [','] + "x";
    assert line == "chr1,x";
    SplitOnPrefix("chr1", ',', "x");
    assert SplitOn("x", ',') == ["x"];
    assert ',' in line by { assert line[4] == ','; }
    assert DropTrailingEmpty(["chr1", "x"]) == ["chr1", "x"];
    assert JavaSplit(line, ',') == ["chr1", "x"];
    assert ParseLong("x") == None by { assert !AllDigits("x") by { assert !IsDigit("x"[0]); } }
  }

  /** A comma-free position that is not a `long` is the NumberFormatException of that field. */
  lemma ParseLineNotALong(c: string, f: string)
    requires ',' !in c && ',' !in f && f != "" && ParseLong(f) == None
    ensures ParseLine(c + "," + f) == Err(NumberFormatException(f))
  {
    var line := c + [','] + f;
    assert c + "," + f == line;
    SplitOnPrefix(c, ',', f);
    assert line[|c|] == ',';
    assert JavaSplit(line, ',') == DropTrailingEmpty([c, f]) == [c, f];
  }

  /** Extra fields after the position do not change the result. */
  lemma ParseLineIgnoresExtraFields(c: string, p: int, rest: string)
    requires ',' !in c && InLongRange(p)
    ensures ParseLine(c + "," + IntToString(p) + "," + rest) == Ok(CallHolder(c, p))
  {
    var digits := IntToString(p);
    IntToStringNoChar(p, ',');
    var line := c + "," + digits + "," + rest;
    assert line == c + [','] + (digits + [','] + rest);
    SplitOnPrefix(c, ',', digits + [','] + rest);
    SplitOnPrefix(digits, ',', rest);
    var all := SplitOn(line, ',');
    assert all[0] == c && all[1] == digits;
    assert digits != "" by { NatToStringDigits(if p < 0 then -p else p); }
    DropTrailingEmptyKeeps(all, 1);
    var f := JavaSplit(line, ',');
    assert f[0] == c && f[1] == digits;
    ParseLongRoundTrip(p);
  }

  /** Parsing `c + "," + p` gives back (c, p) for every comma-free chromosome and `long` p. */
  lemma ParseLineRoundTrip(c: string, p: int)
    requires ',' !in c && InLongRange(p)
    ensures ParseLine(c + "," + IntToString(p)) == Ok(CallHolder(c, p))
  {
    var digits := IntToString(p);
    IntToStringNoChar(p, ',');
    var line := c + "," + digits;
    assert line == c + [','] + digits;
    SplitOnPrefix(c, ',', digits);
    assert digits != "" by { NatToStringDigits(if p < 0 then -p else p); }
    assert JavaSplit(line, ',') == [c, digits];
    ParseLongRoundTrip(p);
  }

  /** CallHolder.toString: "<chromosome,position>". */
  function CallHolderToString(h: CallHolder): (s: string)
    ensures |s| >= 2 && s[0] == '<' && s[|s| - 1] == '>'
    ensures s[1..|s| - 1] == h.chromosome + "," + IntToString(h.position)
  {
    "<" + h.chromosome + "," + IntToString(h.position) + ">"
  }

  /** The rendering of a parsed call, stripped of its brackets, parses back to the same call. */
  lemma CallHolderToStringParses(h: CallHolder)
    requires ',' !in h.chromosome && InLongRange(h.position)
    ensures var s := CallHolderToString(h); ParseLine(s[1..|s| - 1]) == Ok(h)
  {
    ParseLineRoundTrip(h.chromosome, h.position);
  }
}
