/**
 * The reader of DICE's standard output (`DICEVerifier.parse_dice_output`):
 * a line-oriented scan that starts collecting rows after a header line
 * naming both `Value` and `Probability`, turns each well-formed
 * `<index> <probability>` row into an entry `index + 1 -> probability`,
 * drops indices of 7 and above, and skips every row it cannot read.
 */
module DiceOutput {
  import opened Wrappers
  import opened PyStrings
  import opened Numerals

  /** Number of FMS levels: a zero-based index at or above it is dropped. */
  const Levels: int := 7

  /** `'Value' in line and 'Probability' in line` */
  predicate IsHeader(line: string)
  {
    Contains(line, "Value") && Contains(line, "Probability")
  }

  /** The zero-based index and probability a data row holds, if it is well formed and in range. */
  function ParseRow(line: string): (row: Option<(int, real)>)
    ensures row.Some? ==> row.value.0 < Levels && !AllSpace(line)
  {
    var parts := Words(line);
    if |parts| < 2 then None
    else match ParseInt(parts[0])
      case None => None
      case Some(index) =>
        if index >= Levels then None
        else match ParseFloat(parts[1])
          case None => None
          case Some(p) => Some((index, p))
  }

  /** The loop state of the scan: whether the header was seen, and the entries so far. */
  datatype ScanState = ScanState(parsing: bool, results: map<int, real>)

  const Start := ScanState(false, map[])

  /** A data row after the header: a readable row sets level `index + 1`, an unreadable one is skipped. */
  function Collect(st: ScanState, row: Option<(int, real)>): ScanState
  {
    match row
    case Some((index, p)) => ScanState(true, st.results[index + 1 := p])
    case None => st
  }

  /** Collecting a readable row, stated on its parts. */
  lemma CollectRow(st: ScanState, index: int, p: real)
    ensures Collect(st, Some((index, p))) == ScanState(true, st.results[index + 1 := p])
  {
  }

  /** One iteration of the scan over a line. */
  function Step(st: ScanState, line: string): ScanState
  {
    if IsHeader(line) then ScanState(true, st.results)
    else if st.parsing && Strip(line) != [] then
      Collect(st, ParseRow(line))
    else st
  }

  /** The scan over `lines`, from state `st`. */
  function Run(st: ScanState, lines: seq<string>): ScanState
    decreases |lines|
  {
    if lines == [] then st else Step(Run(st, lines[..|lines| - 1]), lines[|lines| - 1])
  }

  /** `output.strip().split('\n')` */
  function OutputLines(output: string): seq<string>
  {
    SplitOn(Strip(output), '\n')
  }

  /** The map `parse_dice_output` returns. */
  function Parsed(output: string): map<int, real>
  {
    Run(Start, OutputLines(output)).results
  }

  /** `parse_dice_output(output)` */
  method ParseDiceOutput(output: string) returns (results: map<int, real>)
    ensures results == Parsed(output)
    ensures forall level :: level in results ==> level <= Levels
  {
    results := map[];
    var parsing := false;
    var lines := OutputLines(output);
    for i := 0 to |lines|
      invariant ScanState(parsing, results) == Run(Start, lines[..i])
    {
      var line := lines[i];
      RunPrefix(lines, i);
      ghost var before := ScanState(parsing, results);
      if IsHeader(line) {
        parsing := true;
      } else if parsing && Strip(line) != [] {
        var row := ParseRow(line);
        if row.Some? {
          var (index, p) := row.value;
          CollectRow(before, index, p);
          results := results[index + 1 := p];
        }
      }
      StepCases(before, line);
    }
    assert lines[..|lines|] == lines;
    ParsedLevelsAtMostSeven(lines);
  }

  /** Scanning one more line is one more step. */
  lemma RunPrefix(lines: seq<string>, i: nat)
    requires i < |lines|
    ensures Run(Start, lines[..i + 1]) == Step(Run(Start, lines[..i]), lines[i])
  {
    assert lines[..i + 1][..i] == lines[..i];
  }

  /** The three cases of a step: a header, a data row after the header, anything else. */
  lemma StepCases(st: ScanState, line: string)
    ensures IsHeader(line) ==> Step(st, line) == ScanState(true, st.results)
    ensures !IsHeader(line) && st.parsing && Strip(line) != [] ==> Step(st, line) == Collect(st, ParseRow(line))
    ensures !IsHeader(line) && !(st.parsing && Strip(line) != []) ==> Step(st, line) == st
  {
  }

  lemma {:induction false} RunAppend(st: ScanState, a: seq<string>, b: seq<string>)
    ensures Run(st, a + b) == Run(Run(st, a), b)
    decreases |b|
  {
    if b == [] {
      assert a + b == a;
    } else {
      assert (a + b)[..|a + b| - 1] == a + b[..|b| - 1];
      RunAppend(st, a, b[..|b| - 1]);
    }
  }

  /** Before any header line, no row is read and nothing is collected. */
  lemma {:induction false} NoHeaderNoResults(lines: seq<string>)
    requires forall i :: 0 <= i < |lines| ==> !IsHeader(lines[i])
    ensures Run(Start, lines) == Start
  {
    if lines != [] {
      NoHeaderNoResults(lines[..|lines| - 1]);
    }
  }

  /** Output without a header line parses to the empty map. */
  lemma NoHeaderEmptyMap(output: string)
    requires forall line :: line in OutputLines(output) ==> !IsHeader(line)
    ensures Parsed(output) == map[]
  {
    NoHeaderNoResults(OutputLines(output));
  }

  /**
   * Lines before the first header do not matter, and the header itself adds
   * nothing: the scan continues from an empty map with collection switched on.
   */
  lemma RowsBeforeHeaderIgnored(before: seq<string>, header: string, after: seq<string>)
    requires forall i :: 0 <= i < |before| ==> !IsHeader(before[i])
    requires IsHeader(header)
    ensures Run(Start, before + [header] + after) == Run(ScanState(true, map[]), after)
  {
    NoHeaderNoResults(before);
    RunAppend(Start, before, [header]);
    assert Run(Start, [header]) == ScanState(true, map[]) by {
      assert [header][..0] == [];
    }
    assert Run(Run(Start, before), [header]) == ScanState(true, map[]) by {
      assert [header][..0] == [];
    }
    RunAppend(Start, before + [header], after);
  }

  /** A readable row after the header sets its level, overwriting any earlier row of the same index. */
  lemma RowSetsLevel(st: ScanState, line: string, index: int, p: real)
    requires st.parsing && !IsHeader(line)
    requires ParseRow(line) == Some((index, p))
    ensures Step(st, line) == ScanState(true, st.results[index + 1 := p])
  {
    assert Strip(line) != [];
    assert Step(st, line) == Collect(st, ParseRow(line));
    CollectRow(st, index, p);
  }

  /** A line that is not a header and not a readable row changes nothing. */
  lemma UnreadableRowSkipped(st: ScanState, line: string)
    requires !IsHeader(line) && ParseRow(line).None?
    ensures Step(st, line) == st
  {
  }

  /** A row with fewer than two fields, a first field that is not an integer, or a second that is not a number is not read. */
  lemma MalformedRowRejected(line: string)
    requires || |Words(line)| < 2
             || ParseInt(Words(line)[0]).None?
             || ParseFloat(Words(line)[1]).None?
    ensures ParseRow(line) == None
  {
  }

  /** A row whose first field reads as an index of 7 or more is dropped, whatever its second field. */
  lemma OutOfRangeIndexDropped(line: string)
    requires |Words(line)| >= 2
    requires ParseInt(Words(line)[0]).Some? && ParseInt(Words(line)[0]).value >= Levels
    ensures ParseRow(line) == None
  {
  }

  /** A row whose first two fields read as an index below 7 and a number is read as that pair. */
  lemma WellFormedRowRead(line: string, index: int, p: real)
    requires |Words(line)| >= 2
    requires ParseInt(Words(line)[0]) == Some(index) && index < Levels
    requires ParseFloat(Words(line)[1]) == Some(p)
    ensures ParseRow(line) == Some((index, p))
  {
  }

  /** A rendered numeral has no whitespace in it. */
  lemma Fixed6IsWord(m: nat)
    ensures IsWord(FormatFixed6(m))
  {
    var ip := ToDigits(m / Scale);
    var fp := PadDigits(m % Scale, 6);
    var s := FormatFixed6(m);
    forall i | 0 <= i < |s|
      ensures !IsSpace(s[i])
    {
      if i < |ip| {
        assert s[i] == ip[i] && IsDigit(ip[i]);
      } else if i > |ip| {
        assert s[i] == fp[i - |ip| - 1] && IsDigit(fp[i - |ip| - 1]);
      }
    }
  }

  /** Two fields separated by one whitespace character, read as an index below 7 and a number, form a row. */
  lemma TwoFieldRowRead(first: string, sep: char, second: string, index: int, p: real)
    requires IsWord(first) && IsSpace(sep) && IsWord(second)
    requires ParseInt(first) == Some(index) && index < Levels
    requires ParseFloat(second) == Some(p)
    ensures ParseRow(first + ([sep] + second)) == Some((index, p))
  {
    TwoWords(first, sep, second);
    WellFormedRowRead(first + ([sep] + second), index, p);
  }

  /**
   * A row printed as the index, one whitespace character and the probability
   * `m / 10^6` with six fractional digits is read back as exactly that pair.
   */
  lemma RowRoundTrip(index: nat, sep: char, m: nat)
    requires index < Levels && IsSpace(sep)
    ensures ParseRow(ToDigits(index) + ([sep] + FormatFixed6(m))) == Some((index as int, (m as real) / (Scale as real)))
  {
    var ds := ToDigits(index);
    assert IsWord(ds) by {
      forall i | 0 <= i < |ds|
        ensures !IsSpace(ds[i])
      {
        assert IsDigit(ds[i]);
      }
    }
    Fixed6IsWord(m);
    ParseIntReadsNumeral(index);
    ParseFloatReadsFixed6(m);
    TwoFieldRowRead(ds, sep, FormatFixed6(m), index, (m as real) / (Scale as real));
  }

  /** Does `line` read as a row for zero-based index `index`? */
  predicate ReadsIndex(line: string, index: int)
  {
    ParseRow(line).Some? && ParseRow(line).value.0 == index
  }

  /** Once a header has been seen, the scan keeps collecting rows. */
  lemma {:induction false} ParsingStaysOn(st: ScanState, lines: seq<string>)
    requires st.parsing
    ensures Run(st, lines).parsing
    decreases |lines|
  {
    if lines != [] {
      ParsingStaysOn(st, lines[..|lines| - 1]);
      StepCases(Run(st, lines[..|lines| - 1]), lines[|lines| - 1]);
    }
  }

  /** An entry survives every line that does not read as a row for its own index. */
  lemma {:induction false} EntrySurvives(st: ScanState, lines: seq<string>, level: int)
    requires level in st.results
    requires forall k :: 0 <= k < |lines| ==> !ReadsIndex(lines[k], level - 1)
    ensures level in Run(st, lines).results && Run(st, lines).results[level] == st.results[level]
    decreases |lines|
  {
    if lines != [] {
      var init := lines[..|lines| - 1];
      var line := lines[|lines| - 1];
      EntrySurvives(st, init, level);
      var before := Run(st, init);
      StepCases(before, line);
      if !IsHeader(line) && before.parsing && Strip(line) != [] && ParseRow(line).Some? {
        var (index, p) := ParseRow(line).value;
        CollectRow(before, index, p);
        assert !ReadsIndex(lines[|lines| - 1], level - 1);
      }
    }
  }

  /**
   * A readable row anywhere after a header sets its level, unless a later
   * line reads as a row for the same index.
   */
  lemma RowAfterHeaderParsed(
    before: seq<string>, header: string, mid: seq<string>, line: string, after: seq<string>,
    index: int, p: real)
    requires IsHeader(header) && !IsHeader(line)
    requires ParseRow(line) == Some((index, p))
    requires forall k :: 0 <= k < |after| ==> !ReadsIndex(after[k], index)
    ensures index + 1 in Run(Start, before + [header] + mid + [line] + after).results
    ensures Run(Start, before + [header] + mid + [line] + after).results[index + 1] == p
  {
    var withHeader := before + [header];
    RunAppend(Start, before, [header]);
    assert [header][..0] == [];
    StepCases(Run(Start, before), header);
    var pre := withHeader + mid;
    RunAppend(Start, withHeader, mid);
    ParsingStaysOn(Run(Start, withHeader), mid);
    RunAppend(Start, pre, [line]);
    assert [line][..0] == [];
    RowSetsLevel(Run(Start, pre), line, index, p);
    RunAppend(Start, pre + [line], after);
    EntrySurvives(Run(Start, pre + [line]), after, index + 1);
  }

  /** Every collected level is at most 7. */
  lemma {:induction false} ParsedLevelsAtMostSeven(lines: seq<string>)
    ensures forall level :: level in Run(Start, lines).results ==> level <= Levels
  {
    if lines != [] {
      ParsedLevelsAtMostSeven(lines[..|lines| - 1]);
    }
  }

  /** An entry after one step was either there before, unchanged, or read from the line. */
  lemma StepEntry(st: ScanState, line: string, level: int)
    requires level in Step(st, line).results
    ensures || (level in st.results && Step(st, line).results[level] == st.results[level])
            || ParseRow(line) == Some((level - 1, Step(st, line).results[level]))
  {
    StepCases(st, line);
    if !IsHeader(line) && st.parsing && Strip(line) != [] && ParseRow(line).Some? {
      var (index, p) := ParseRow(line).value;
      CollectRow(st, index, p);
    }
  }

  /** Every collected entry comes from some line of the output that reads as (level - 1, probability). */
  lemma {:induction false} ParsedEntryHasRow(lines: seq<string>, level: int)
    requires level in Run(Start, lines).results
    ensures exists i :: 0 <= i < |lines| && ParseRow(lines[i]) == Some((level - 1, Run(Start, lines).results[level]))
  {
    var init := lines[..|lines| - 1];
    var before := Run(Start, init);
    StepEntry(before, lines[|lines| - 1], level);
    if level in before.results && Run(Start, lines).results[level] == before.results[level] {
      ParsedEntryHasRow(init, level);
      var i :| 0 <= i < |init| && ParseRow(init[i]) == Some((level - 1, before.results[level]));
      assert lines[i] == init[i];
    }
  }
}
