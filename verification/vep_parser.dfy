/** The VEP pre-parser: copies the `##` metadata lines to a text file and turns the data lines of a
    VCF (tab-separated columns `#CHROM POS ID REF ALT QUAL FILTER INFO`) into CSV rows, one row per
    ALT allele. Files are sequences of lines; the CSV file is a sequence of rows of fields. */
module VepParsing {
  import opened Wrappers
  import opened Text
  import opened Seqs
  import opened BaseParser

  const OutputHeader: seq<string> := ["CHROM", "POS", "ID", "REF", "ALT", "QUAL", "FILTER", "INFO"]
  const ParsedCsvName := "vep_parsed_variants.csv"
  const MetadataName := "metadata.txt"

  predicate IsMetadataLine(line: string) { StartsWith(line, "##") }
  predicate IsDataLine(line: string) { !StartsWith(line, "#") }
  predicate IsHeaderLine(line: string) { StartsWith(line, "#CHROM") }
  predicate IsInfo(column: string) { column == "INFO" }

  /** The RuntimeError `parse` raises, by cause. */
  datatype ParseError =
    | NoHeaderLine               // `next(...)` found no `#CHROM` line
    | NoInfoColumn               // `header.index('INFO')` failed
    | TooFewFields(line: string) // a data line lacks a column the row needs

  /** `line.strip().split('\t')` */
  function Fields(line: string): seq<string> {
    Split(Strip(line), '\t')
  }

  /** The CSV row written for one ALT allele of a data line. */
  function AlleleRow(fields: seq<string>, infoIndex: nat, allele: string): seq<string>
    requires |fields| > 6 && |fields| > infoIndex
  {
    [fields[0], fields[1], fields[2], fields[3], allele, fields[5], fields[6], fields[infoIndex]]
  }

  /** The rows of one data line, one per comma-separated ALT allele and in allele order, or None when
      the line has too few fields to fill a row. */
  function LineRows(line: string, infoIndex: nat): (r: Option<seq<seq<string>>>)
    ensures r.None? <==> |Fields(line)| <= 6 || |Fields(line)| <= infoIndex
    ensures r.Some? ==> |r.value| == Count(Fields(line)[4], ',') + 1
  {
    var fields := Fields(line);
    if |fields| <= 6 || |fields| <= infoIndex then None
    else
      var alleles := Split(fields[4], ',');
      Some(seq(|alleles|, j requires 0 <= j < |alleles| => AlleleRow(fields, infoIndex, alleles[j])))
  }

  /** Every row of a line copies CHROM, POS, ID, REF, QUAL and FILTER from their positions and INFO from
      the header's INFO column, takes one allele without a comma as ALT, and the ALTs of the rows,
      joined with commas, give back the line's ALT field. */
  lemma LineRowsShape(line: string, infoIndex: nat)
    requires LineRows(line, infoIndex).Some?
    ensures var rows := LineRows(line, infoIndex).value; var fields := Fields(line);
      && (forall j :: 0 <= j < |rows| ==>
            |rows[j]| == 8 && ',' !in rows[j][4]
            && rows[j][..4] == fields[..4] && rows[j][5..7] == fields[5..7] && rows[j][7] == fields[infoIndex])
      && Join(seq(|rows|, j requires 0 <= j < |rows| => rows[j][4]), ',') == fields[4]
  {
    var fields := Fields(line);
    var alleles := Split(fields[4], ',');
    var rows := LineRows(line, infoIndex).value;
    forall j | 0 <= j < |rows|
      ensures |rows[j]| == 8 && ',' !in rows[j][4]
      ensures rows[j][..4] == fields[..4] && rows[j][5..7] == fields[5..7] && rows[j][7] == fields[infoIndex]
    {
      assert rows[j] == AlleleRow(fields, infoIndex, alleles[j]);
    }
    assert Join(seq(|rows|, j requires 0 <= j < |rows| => rows[j][4]), ',') == fields[4] by {
      assert seq(|rows|, j requires 0 <= j < |rows| => rows[j][4]) == alleles;
      JoinSplit(fields[4], ',');
    }
  }

  /** What the row-writing loop leaves behind: the rows written, and the line it stopped at, if any. */
  datatype Emission = Emission(rows: seq<seq<string>>, failure: Option<string>)

  /** The rows written for `lines`, line after line, up to the first line with too few fields. */
  function Emit(lines: seq<string>, infoIndex: nat): (r: Emission)
    ensures r.failure.Some? ==> r.failure.value in lines
  {
    if lines == [] then Emission([], None)
    else
      var prev := Emit(lines[..|lines| - 1], infoIndex);
      var last := lines[|lines| - 1];
      if prev.failure.Some? then prev
      else
        match LineRows(last, infoIndex)
        case None => Emission(prev.rows, Some(last))
        case Some(rows) => Emission(prev.rows + rows, None)
  }

  /** The effect of the last line: nothing after a failure, otherwise its rows or its failure. */
  lemma EmitLast(lines: seq<string>, infoIndex: nat)
    requires lines != []
    ensures var prev := Emit(lines[..|lines| - 1], infoIndex);
      var last := lines[|lines| - 1];
      && (prev.failure.Some? ==> Emit(lines, infoIndex) == prev)
      && (prev.failure.None? && LineRows(last, infoIndex).None? ==> Emit(lines, infoIndex) == Emission(prev.rows, Some(last)))
      && (prev.failure.None? && LineRows(last, infoIndex).Some? ==>
            Emit(lines, infoIndex) == Emission(prev.rows + LineRows(last, infoIndex).value, None))
  {
  }

  /** Once a line failed, the lines after it change nothing. */
  lemma {:induction false} EmitStopsAtFailure(lines: seq<string>, n: nat, infoIndex: nat)
    requires n <= |lines| && Emit(lines[..n], infoIndex).failure.Some?
    ensures Emit(lines, infoIndex) == Emit(lines[..n], infoIndex)
    decreases |lines| - n
  {
    if n < |lines| {
      assert lines[..n + 1][..n] == lines[..n];
      EmitStopsAtFailure(lines, n + 1, infoIndex);
    } else {
      assert lines[..n] == lines;
    }
  }

  /** A line with enough fields appends its rows to those of the lines before it. */
  lemma EmitAppends(lines: seq<string>, i: nat, infoIndex: nat)
    requires i < |lines| && Emit(lines[..i], infoIndex).failure.None? && LineRows(lines[i], infoIndex).Some?
    ensures Emit(lines[..i + 1], infoIndex) == Emission(Emit(lines[..i], infoIndex).rows + LineRows(lines[i], infoIndex).value, None)
  {
    assert lines[..i + 1][..i] == lines[..i];
  }

  /** Sum over the lines of the number of ALT alleles each holds. */
  function AlleleTotal(lines: seq<string>): nat {
    if lines == [] then 0
    else
      var fields := Fields(lines[|lines| - 1]);
      AlleleTotal(lines[..|lines| - 1]) + (if |fields| > 4 then Count(fields[4], ',') + 1 else 0)
  }

  /** Every line is written exactly when no line has too few fields. */
  lemma EmitSucceeds(lines: seq<string>, infoIndex: nat)
    ensures Emit(lines, infoIndex).failure.None? <==> forall i :: 0 <= i < |lines| ==> LineRows(lines[i], infoIndex).Some?
  {
    if Emit(lines, infoIndex).failure.None? {
      EmitWrittenAll(lines, infoIndex);
    } else if forall i :: 0 <= i < |lines| ==> LineRows(lines[i], infoIndex).Some? {
      EmitAllWritten(lines, infoIndex);
    }
  }

  /** Lines that all have enough fields are all written. */
  lemma {:induction false} EmitAllWritten(lines: seq<string>, infoIndex: nat)
    requires forall i :: 0 <= i < |lines| ==> LineRows(lines[i], infoIndex).Some?
    ensures Emit(lines, infoIndex).failure.None?
  {
    if lines != [] {
      var init := lines[..|lines| - 1];
      assert forall i :: 0 <= i < |init| ==> init[i] == lines[i];
      EmitAllWritten(init, infoIndex);
      EmitLast(lines, infoIndex);
      assert LineRows(lines[|lines| - 1], infoIndex).Some?;
    }
  }

  /** When every line was written, every line had enough fields. */
  lemma {:induction false} EmitWrittenAll(lines: seq<string>, infoIndex: nat)
    requires Emit(lines, infoIndex).failure.None?
    ensures forall i :: 0 <= i < |lines| ==> LineRows(lines[i], infoIndex).Some?
  {
    if lines != [] {
      var init := lines[..|lines| - 1];
      var last := lines[|lines| - 1];
      EmitLast(lines, infoIndex);
      assert Emit(init, infoIndex).failure.None? && LineRows(last, infoIndex).Some?;
      EmitWrittenAll(init, infoIndex);
      forall i | 0 <= i < |lines| ensures LineRows(lines[i], infoIndex).Some? {
        if i < |init| {
          assert init[i] == lines[i];
        } else {
          assert lines[i] == last;
        }
      }
    }
  }

  /** Writing stops at the first line with too few fields, after the rows of the lines before it. */
  lemma {:induction false} EmitFailsAtFirstShortLine(lines: seq<string>, infoIndex: nat)
    requires Emit(lines, infoIndex).failure.Some?
    ensures exists i :: (
      && 0 <= i < |lines| && lines[i] == Emit(lines, infoIndex).failure.value
      && LineRows(lines[i], infoIndex).None?
      && (forall k :: 0 <= k < i ==> LineRows(lines[k], infoIndex).Some?)
      && Emit(lines, infoIndex).rows == Emit(lines[..i], infoIndex).rows)
  {
    var init := lines[..|lines| - 1];
    var prev := Emit(init, infoIndex);
    EmitLast(lines, infoIndex);
    if prev.failure.Some? {
      EmitFailsAtFirstShortLine(init, infoIndex);
      var i :| (
        && 0 <= i < |init| && init[i] == prev.failure.value && LineRows(init[i], infoIndex).None?
        && (forall k :: 0 <= k < i ==> LineRows(init[k], infoIndex).Some?)
        && prev.rows == Emit(init[..i], infoIndex).rows);
      ShortLineInPrefix(lines, init, i, infoIndex);
    } else {
      EmitWrittenAll(init, infoIndex);
      ShortLineInPrefix(lines, init, |init|, infoIndex);
    }
  }

  /** What holds of the lines before the last transfers to the whole input. */
  lemma ShortLineInPrefix(lines: seq<string>, init: seq<string>, i: nat, infoIndex: nat)
    requires lines != [] && init == lines[..|lines| - 1] && i < |lines|
    requires forall k :: 0 <= k < i ==> LineRows(init[k], infoIndex).Some?
    ensures forall k :: 0 <= k < i ==> LineRows(lines[k], infoIndex).Some?
    ensures i < |init| ==> init[..i] == lines[..i] && init[i] == lines[i]
    ensures i == |init| ==> init == lines[..i]
  {
    assert forall k :: 0 <= k < |init| ==> init[k] == lines[k];
  }

  /** Without a short line, there is one row per allele of every line. */
  lemma {:induction false} EmitRowCount(lines: seq<string>, infoIndex: nat)
    requires Emit(lines, infoIndex).failure.None?
    ensures |Emit(lines, infoIndex).rows| == AlleleTotal(lines)
  {
    if lines != [] {
      EmitRowCount(lines[..|lines| - 1], infoIndex);
    }
  }

  /** Every row written has eight fields, and its ALT field holds no comma. */
  lemma {:induction false} EmitRowsShape(lines: seq<string>, infoIndex: nat)
    ensures forall j :: 0 <= j < |Emit(lines, infoIndex).rows| ==>
      |Emit(lines, infoIndex).rows[j]| == 8 && ',' !in Emit(lines, infoIndex).rows[j][4]
  {
    if lines != [] {
      var last := lines[|lines| - 1];
      EmitRowsShape(lines[..|lines| - 1], infoIndex);
      if LineRows(last, infoIndex).Some? {
        LineRowsShape(last, infoIndex);
      }
    }
  }

  /** The inner loop of `parse`: one `writerow` per comma-separated ALT allele of a data line. */
  method WriteAlleleRows(rows: seq<seq<string>>, fields: seq<string>, infoIndex: nat) returns (out: seq<seq<string>>)
    requires |fields| > 6 && |fields| > infoIndex
    ensures var alleles := Split(fields[4], ',');
      out == rows + seq(|alleles|, k requires 0 <= k < |alleles| => AlleleRow(fields, infoIndex, alleles[k]))
  {
    var alleles := Split(fields[4], ',');
    out := rows;
    var j := 0;
    while j < |alleles|
      invariant 0 <= j <= |alleles|
      invariant out == rows + seq(j, k requires 0 <= k < j => AlleleRow(fields, infoIndex, alleles[k]))
    {
      out := out + [[fields[0], fields[1], fields[2], fields[3], alleles[j], fields[5], fields[6], fields[infoIndex]]];
      j := j + 1;
    }
  }

  /** The row-writing loop of `parse`: for each data line, one `writerow` per ALT allele. */
  method EmitRows(dataLines: seq<string>, infoIndex: nat) returns (rows: seq<seq<string>>, failure: Option<string>)
    ensures Emission(rows, failure) == Emit(dataLines, infoIndex)
  {
    rows := [];
    var i := 0;
    while i < |dataLines|
      invariant 0 <= i <= |dataLines|
      invariant Emit(dataLines[..i], infoIndex) == Emission(rows, None)
    {
      var fields := Split(Strip(dataLines[i]), '\t');
      if |fields| <= 6 || |fields| <= infoIndex {
        assert dataLines[..i + 1][..i] == dataLines[..i];
        EmitStopsAtFailure(dataLines, i + 1, infoIndex);
        return rows, Some(dataLines[i]);
      }
      ghost var before := rows;
      rows := WriteAlleleRows(rows, fields, infoIndex);
      assert rows == before + LineRows(dataLines[i], infoIndex).value;
      EmitAppends(dataLines, i, infoIndex);
      i := i + 1;
    }
    assert dataLines[..i] == dataLines;
    failure := None;
  }

  /** The dictionary `parse` returns: the common parser keys and the path of the metadata file. */
  datatype VepParseResult = VepParseResult(
    outputFolder: string, parsedFile: string, metadataFile: string, timestamp: string)

  /** What `parse` leaves behind: the metadata file, the CSV file if it was opened, and the
      dictionary returned or the error raised. */
  datatype VepParse = VepParse(
    outputFolder: string, metadataFile: seq<string>, csvFile: Option<seq<seq<string>>>,
    result: Result<VepParseResult, ParseError>)

  /** `VEPParser.parse(input_vcf, output_dir)` on the input's lines; `timestamp` is the formatted
      current time. The metadata file is written before the header is looked for, so it exists
      whatever goes wrong afterwards. */
  method Parse(lines: seq<string>, outputDir: string, timestamp: string) returns (out: VepParse)
    ensures out.outputFolder == PathJoin(outputDir, timestamp)
    ensures out.metadataFile == Filter(lines, IsMetadataLine)
    ensures FirstIndex(lines, IsHeaderLine).None? ==> out.csvFile.None? && out.result == Err(NoHeaderLine)
    ensures FirstIndex(lines, IsHeaderLine).Some? ==>
      var header := Fields(lines[FirstIndex(lines, IsHeaderLine).value]);
      match FirstIndex(header, IsInfo)
      case None => out.csvFile.None? && out.result == Err(NoInfoColumn)
      case Some(infoIndex) =>
        var e := Emit(Filter(lines, IsDataLine), infoIndex);
        && out.csvFile == Some([OutputHeader] + e.rows)
        && (e.failure.Some? ==> out.result == Err(TooFewFields(e.failure.value)))
        && (e.failure.None? ==> out.result.Ok?)
    ensures out.result.Ok? ==> out.result.value == VepParseResult(
      out.outputFolder, PathJoin(out.outputFolder, ParsedCsvName), PathJoin(out.outputFolder, MetadataName), timestamp)
  {
    var outputFolder := PathJoin(outputDir, timestamp);
    var parsedCsv := PathJoin(outputFolder, ParsedCsvName);
    var metadataTxt := PathJoin(outputFolder, MetadataName);
    var metadata := Filter(lines, IsMetadataLine);
    var dataLines := Filter(lines, IsDataLine);
    match FirstIndex(lines, IsHeaderLine) {
      case None =>
        return VepParse(outputFolder, metadata, None, Err(NoHeaderLine));
      case Some(h) =>
        var header := Split(Strip(lines[h]), '\t');
        match FirstIndex(header, IsInfo) {
          case None =>
            return VepParse(outputFolder, metadata, None, Err(NoInfoColumn));
          case Some(infoIndex) =>
            var rows, failure := EmitRows(dataLines, infoIndex);
            var csv := Some([OutputHeader] + rows);
            match failure {
              case Some(line) =>
                return VepParse(outputFolder, metadata, csv, Err(TooFewFields(line)));
              case None =>
                return VepParse(outputFolder, metadata, csv, Ok(VepParseResult(outputFolder, parsedCsv, metadataTxt, timestamp)));
            }
        }
    }
  }

  /** Both files `parse` names lie directly inside `output_dir/timestamp`, whose own name is the
      timestamp. */
  lemma OutputFilesLocation(outputDir: string, timestamp: string)
    requires timestamp != [] && '/' !in timestamp
    ensures var folder := PathJoin(outputDir, timestamp);
      && Basename(folder) == timestamp
      && PathJoin(folder, ParsedCsvName) == folder + "/" + ParsedCsvName
      && Basename(PathJoin(folder, ParsedCsvName)) == ParsedCsvName
      && PathJoin(folder, MetadataName) == folder + "/" + MetadataName
      && Basename(PathJoin(folder, MetadataName)) == MetadataName
  {
    FileNamesArePlain();
    TimestampedFile(outputDir, timestamp, ParsedCsvName);
    TimestampedFile(outputDir, timestamp, MetadataName);
  }

  lemma FileNamesArePlain()
    ensures ParsedCsvName != [] && '/' !in ParsedCsvName
    ensures MetadataName != [] && '/' !in MetadataName
  {
  }
}
