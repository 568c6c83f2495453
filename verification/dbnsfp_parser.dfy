/** The dbNSFP pre-parser: rewrites a VCF as its `#CHROM` header line followed by its data lines,
    dropping the `##` metadata. Files are sequences of lines (each line as `readlines` returns it). */
module DbnsfpParsing {
  import opened Wrappers
  import opened Text
  import opened Seqs
  import opened BaseParser

  const ProcessedName := "dbnsfp_input.vcf"

  predicate IsHeaderLine(line: string) { StartsWith(line, "#CHROM") }
  predicate IsDataLine(line: string) { !StartsWith(line, "#") }

  /** The RuntimeError `parse` raises: `next(...)` found no `#CHROM` line. */
  datatype ParseError = NoHeaderLine

  /** The lines written to `dbnsfp_input.vcf`: the first `#CHROM` line, then every line not starting
      with `#`, in input order. */
  function ProcessedLines(lines: seq<string>): (r: Result<seq<string>, ParseError>)
    ensures r.Err? <==> forall i :: 0 <= i < |lines| ==> !IsHeaderLine(lines[i])
    ensures r.Ok? ==> |r.value| >= 1 && exists h :: (
      && 0 <= h < |lines| && r.value[0] == lines[h] && IsHeaderLine(lines[h])
      && forall k :: 0 <= k < h ==> !IsHeaderLine(lines[k]))
    ensures r.Ok? ==> r.value[1..] == Filter(lines, IsDataLine)
  {
    match FirstIndex(lines, IsHeaderLine)
    case None => Err(NoHeaderLine)
    case Some(h) => Ok([lines[h]] + Filter(lines, IsDataLine))
  }

  /** Exactly one output line starts with `#` (the header, which comes first), so no `##` metadata
      line survives. */
  lemma OneCommentLine(lines: seq<string>)
    requires ProcessedLines(lines).Ok?
    ensures var out := ProcessedLines(lines).value;
      && StartsWith(out[0], "#")
      && (forall i :: 1 <= i < |out| ==> !StartsWith(out[i], "#"))
      && (forall i :: 0 <= i < |out| ==> !StartsWith(out[i], "##"))
  {
    var out := ProcessedLines(lines).value;
    assert out[0][..1] == out[0][..6][..1];
    forall i | 1 <= i < |out| ensures !StartsWith(out[i], "#") {
      assert out[i] == out[1..][i - 1];
    }
    forall i | 0 <= i < |out| ensures !StartsWith(out[i], "##") {
      if i == 0 {
        assert out[0][1] == out[0][..6][1];
      } else if |out[i]| >= 2 {
        assert out[i][..1] == out[i][..2][..1];
      }
    }
  }

  /** A `#CHROM` line followed by data lines is written back unchanged. */
  lemma HeaderThenDataUnchanged(header: string, data: seq<string>)
    requires IsHeaderLine(header)
    requires forall i :: 0 <= i < |data| ==> IsDataLine(data[i])
    ensures ProcessedLines([header] + data) == Ok([header] + data)
  {
    var out := [header] + data;
    assert out[0] == header;
    assert FirstIndex(out, IsHeaderLine) == Some(0);
    FilterConcat([header], data, IsDataLine);
    assert Filter([header], IsDataLine) == [] by {
      assert header[..1] == header[..6][..1];
    }
    FilterAll(data, IsDataLine);
    assert Filter(out, IsDataLine) == data;
    assert ProcessedLines(out) == Ok([out[0]] + Filter(out, IsDataLine));
  }

  /** Running the pre-parser on its own output writes the same lines again. This is about sequences
      of lines: a `#CHROM` line read as the input's last line without a trailing newline is written
      without one, and then runs into the first data line written after it, so the written file
      itself need not be a fixed point. */
  lemma Idempotent(lines: seq<string>)
    requires ProcessedLines(lines).Ok?
    ensures ProcessedLines(ProcessedLines(lines).value) == ProcessedLines(lines)
  {
    var out := ProcessedLines(lines).value;
    assert out == [out[0]] + out[1..];
    HeaderThenDataUnchanged(out[0], out[1..]);
  }

  /** Data lines keep their relative order: the data part of a concatenation is the data part of
      the first input followed by that of the second. */
  lemma DataOrder(a: seq<string>, b: seq<string>)
    requires ProcessedLines(a + b).Ok?
    ensures ProcessedLines(a + b).value[1..] == Filter(a, IsDataLine) + Filter(b, IsDataLine)
  {
    FilterConcat(a, b, IsDataLine);
  }

  /** What `parse` leaves behind: the output folder, the processed file if it was written, and the
      dictionary returned or the error raised. */
  datatype DbnsfpParse = DbnsfpParse(
    outputFolder: string, processedFile: Option<seq<string>>, result: Result<ParseResult, ParseError>)

  /** `DbNSFPParser.parse(input_vcf, output_dir)` on the input's lines; `timestamp` is the formatted
      current time. The output file is opened only after the header was found. */
  function Parse(lines: seq<string>, outputDir: string, timestamp: string): (r: DbnsfpParse)
    ensures r.processedFile.Some? <==> r.result.Ok?
    ensures r.result.Err? <==> forall i :: 0 <= i < |lines| ==> !IsHeaderLine(lines[i])
    ensures r.result.Err? ==> r.result.error == NoHeaderLine
    ensures r.result.Ok? ==> (
      && ProcessedLines(lines).Ok? && r.processedFile == Some(ProcessedLines(lines).value)
      && r.result.value.timestamp == timestamp && r.result.value.outputFolder == r.outputFolder
      && r.result.value.parsedFile == PathJoin(r.outputFolder, ProcessedName))
    ensures r.outputFolder == PathJoin(outputDir, timestamp)
  {
    var outputFolder := PathJoin(outputDir, timestamp);
    var processed := PathJoin(outputFolder, ProcessedName);
    match ProcessedLines(lines)
    case Err(e) => DbnsfpParse(outputFolder, None, Err(e))
    case Ok(out) => DbnsfpParse(outputFolder, Some(out), Ok(ParseResult(outputFolder, processed, timestamp)))
  }

  /** The processed file is `dbnsfp_input.vcf` inside `output_dir/timestamp`, and the folder's own
      name is the timestamp. */
  lemma ParsedFileLocation(lines: seq<string>, outputDir: string, timestamp: string)
    requires timestamp != [] && '/' !in timestamp
    requires Parse(lines, outputDir, timestamp).result.Ok?
    ensures var res := Parse(lines, outputDir, timestamp).result.value;
      && res.outputFolder == PathJoin(outputDir, timestamp)
      && Basename(res.outputFolder) == timestamp
      && res.parsedFile == res.outputFolder + "/" + ProcessedName
      && Basename(res.parsedFile) == ProcessedName
  {
    ProcessedNameIsPlain();
    TimestampedFile(outputDir, timestamp, ProcessedName);
  }

  lemma ProcessedNameIsPlain()
    ensures ProcessedName != [] && '/' !in ProcessedName
  {
  }
}
