/** The CSV to VCF converter: finds the chromosome, position, reference and alternate columns of a
    CSV table by their names, and writes one minimal VCF line per table row. The table is given as
    its column names and its rows, each row a map from column name to the cell's text. */
module CsvConversion {
  import opened Wrappers
  import opened Text
  import opened Seqs
  import opened BaseParser
  import DbnsfpParsing

  const OutputName := "dbnsfp_input.vcf"
  const VcfHeader := "#CHROM\tPOS\tID\tREF\tALT\tQUAL\tFILTER\tINFO\n"
  const MissingColumnsMessage := "CSV file is missing required columns for VCF conversion"
  const FailurePrefix := "Failed to convert CSV to VCF: "

  /** The four columns a VCF line needs. */
  datatype Role = Chrom | Pos | Ref | Alt

  /** The lower-cased column names accepted for each role. */
  function Candidates(role: Role): (r: seq<string>)
    ensures r != []
    ensures forall c :: c in r ==> c != [] && Lower(c) == c
  {
    match role
    case Chrom => ["chrom", "chromosome", "chr", "#chrom", "#chromosome"]
    case Pos => ["pos", "position", "start", "pos_hg38", "pos_hg19"]
    case Ref => ["ref", "reference", "ref_allele"]
    case Alt => ["alt", "alternate", "alt_allele"]
  }

  predicate IsCandidate(role: Role, column: string) {
    Lower(column) in Candidates(role)
  }

  /** No name is a candidate for two roles. */
  lemma CandidatesDisjoint(role1: Role, role2: Role, column: string)
    requires IsCandidate(role1, column) && IsCandidate(role2, column)
    ensures role1 == role2
  {
  }

  /** `name` is the first column, in column order, accepted for `role`. */
  predicate FirstCandidate(columns: seq<string>, role: Role, name: string) {
    exists i :: 0 <= i < |columns| && columns[i] == name && IsCandidate(role, name)
      && forall j :: 0 <= j < i ==> !IsCandidate(role, columns[j])
  }

  /** Some column is accepted for `role`. */
  predicate HasCandidate(columns: seq<string>, role: Role) {
    exists i :: 0 <= i < |columns| && IsCandidate(role, columns[i])
  }

  /** `[col for col in columns if col.lower() in candidates]` */
  function RoleCandidates(columns: seq<string>, role: Role): seq<string> {
    Filter(columns, column => IsCandidate(role, column))
  }

  /** The dictionary `_identify_required_columns` returns: the column chosen for each role. */
  datatype RequiredColumns = RequiredColumns(chrom: string, pos: string, ref: string, alt: string)

  function Column(cols: RequiredColumns, role: Role): string {
    match role
    case Chrom => cols.chrom
    case Pos => cols.pos
    case Ref => cols.ref
    case Alt => cols.alt
  }

  /** `_identify_required_columns(df)`: None unless every role has a candidate column. */
  function IdentifyRequiredColumns(columns: seq<string>): (r: Option<RequiredColumns>)
    ensures r.Some? ==> forall role :: Column(r.value, role) in columns
  {
    var chrom := RoleCandidates(columns, Chrom);
    var pos := RoleCandidates(columns, Pos);
    var ref := RoleCandidates(columns, Ref);
    var alt := RoleCandidates(columns, Alt);
    if chrom != [] && pos != [] && ref != [] && alt != [] then
      Some(RequiredColumns(chrom[0], pos[0], ref[0], alt[0]))
    else None
  }

  /** The candidates of a role, when there are any, begin with the first accepted column. */
  lemma RoleCandidatesHead(columns: seq<string>, role: Role)
    ensures RoleCandidates(columns, role) != [] <==> HasCandidate(columns, role)
    ensures RoleCandidates(columns, role) != [] ==> FirstCandidate(columns, role, RoleCandidates(columns, role)[0])
  {
    var keep := column => IsCandidate(role, column);
    FilterHead(columns, keep);
    if RoleCandidates(columns, role) != [] {
      var i := FirstIndex(columns, keep).value;
      assert columns[i] == RoleCandidates(columns, role)[0];
    }
  }

  /** When a mapping is returned, each role is the first column, in column order, whose lower-cased
      name it accepts. */
  lemma IdentifiedColumnIsFirst(columns: seq<string>, role: Role)
    requires IdentifyRequiredColumns(columns).Some?
    ensures FirstCandidate(columns, role, Column(IdentifyRequiredColumns(columns).value, role))
  {
    RoleCandidatesHead(columns, role);
  }

  /** A mapping is returned exactly when all four roles are found, and each role is then the first
      column, in column order, whose lower-cased name it accepts. */
  lemma IdentifyFindsFirstCandidates(columns: seq<string>)
    ensures IdentifyRequiredColumns(columns).Some? <==> forall role :: HasCandidate(columns, role)
    ensures IdentifyRequiredColumns(columns).Some? ==>
      forall role :: FirstCandidate(columns, role, Column(IdentifyRequiredColumns(columns).value, role))
  {
    if IdentifyRequiredColumns(columns).Some? {
      forall role ensures
        && HasCandidate(columns, role)
        && FirstCandidate(columns, role, Column(IdentifyRequiredColumns(columns).value, role))
      {
        IdentifiedColumnIsFirst(columns, role);
      }
    } else {
      RoleCandidatesHead(columns, Chrom);
      RoleCandidatesHead(columns, Pos);
      RoleCandidatesHead(columns, Ref);
      RoleCandidatesHead(columns, Alt);
    }
  }

  /** The four chosen columns are pairwise distinct. */
  lemma RequiredColumnsDistinct(columns: seq<string>, role1: Role, role2: Role)
    requires IdentifyRequiredColumns(columns).Some?
    requires role1 != role2
    ensures Column(IdentifyRequiredColumns(columns).value, role1) != Column(IdentifyRequiredColumns(columns).value, role2)
  {
    var cols := IdentifyRequiredColumns(columns).value;
    IdentifiedColumnIsFirst(columns, role1);
    IdentifiedColumnIsFirst(columns, role2);
    if Column(cols, role1) == Column(cols, role2) {
      CandidatesDisjoint(role1, role2, Column(cols, role1));
    }
  }

  /** `f"{chrom}\t{pos}\t.\t{ref}\t{alt}\t.\t.\t.\n"` */
  function VcfLine(chrom: string, pos: string, ref: string, alt: string): (r: string)
    ensures |r| == |chrom| + |pos| + |ref| + |alt| + 12
    ensures r[..|chrom| + 1] == chrom + "\t"
    ensures r[|r| - |alt| - 8..] == "\t" + alt + "\t.\t.\t.\n"
  {
    chrom + "\t" + pos + "\t.\t" + ref + "\t" + alt + "\t.\t.\t.\n"
  }

  /** Every row holds a cell for every column, as in a pandas DataFrame. */
  predicate Rectangular(columns: seq<string>, rows: seq<map<string, string>>) {
    forall i :: 0 <= i < |rows| ==> forall c :: c in columns ==> c in rows[i]
  }

  /** Every row holds a cell for each chosen column. */
  predicate HasCells(rows: seq<map<string, string>>, cols: RequiredColumns) {
    forall i :: 0 <= i < |rows| ==> cols.chrom in rows[i] && cols.pos in rows[i] && cols.ref in rows[i] && cols.alt in rows[i]
  }

  /** The VCF line written for one row. */
  function RowLine(row: map<string, string>, cols: RequiredColumns): string
    requires cols.chrom in row && cols.pos in row && cols.ref in row && cols.alt in row
  {
    VcfLine(row[cols.chrom], row[cols.pos], row[cols.ref], row[cols.alt])
  }

  /** The VCF lines written for the table's rows, in row order. */
  function VcfLines(rows: seq<map<string, string>>, cols: RequiredColumns): (r: seq<string>)
    requires HasCells(rows, cols)
    ensures |r| == |rows|
  {
    seq(|rows|, i requires 0 <= i < |rows| => RowLine(rows[i], cols))
  }

  /** The chosen columns are columns of the table, so every row of a rectangular table has them. */
  lemma RectangularHasCells(columns: seq<string>, rows: seq<map<string, string>>)
    requires Rectangular(columns, rows) && IdentifyRequiredColumns(columns).Some?
    ensures HasCells(rows, IdentifyRequiredColumns(columns).value)
  {
    var cols := IdentifyRequiredColumns(columns).value;
    assert Column(cols, Chrom) in columns && Column(cols, Pos) in columns;
    assert Column(cols, Ref) in columns && Column(cols, Alt) in columns;
  }

  /** The RuntimeError `convert_to_vcf` raises. */
  datatype ConvertError = RuntimeError(message: string)

  /** What `convert_to_vcf` leaves behind: the VCF file, if it was opened, and the dictionary
      returned or the error raised. */
  datatype Conversion = Conversion(vcfFile: Option<seq<string>>, result: Result<ParseResult, ConvertError>)

  /** The dictionary `convert_to_vcf` returns for `output_dir`. */
  function Converted(outputDir: string): (r: ParseResult)
    ensures r.outputFolder == outputDir
    ensures |r.parsedFile| >= |OutputName| && r.parsedFile[|r.parsedFile| - |OutputName|..] == OutputName
    ensures '/' !in r.timestamp && |r.timestamp| <= |outputDir| && r.timestamp == outputDir[|outputDir| - |r.timestamp|..]
  {
    ParseResult(outputDir, PathJoin(outputDir, OutputName), Basename(outputDir))
  }

  /** When `output_dir` is a timestamp folder, the returned timestamp is that timestamp and the VCF
      file lies directly inside the folder. */
  lemma ConvertedLocation(baseDir: string, timestamp: string)
    requires timestamp != [] && '/' !in timestamp
    ensures var res := Converted(PathJoin(baseDir, timestamp));
      && res.timestamp == timestamp
      && res.parsedFile == res.outputFolder + "/" + OutputName
      && Basename(res.parsedFile) == OutputName
  {
    TimestampedFile(baseDir, timestamp, OutputName);
  }

  /** `CSVConverter.convert_to_vcf(csv_file, output_dir)` on the table read from `csv_file`. */
  method ConvertToVcf(columns: seq<string>, rows: seq<map<string, string>>, outputDir: string) returns (out: Conversion)
    requires Rectangular(columns, rows)
    ensures IdentifyRequiredColumns(columns).None? ==>
      out == Conversion(None, Err(RuntimeError(FailurePrefix + MissingColumnsMessage)))
    ensures IdentifyRequiredColumns(columns).Some? ==>
      && HasCells(rows, IdentifyRequiredColumns(columns).value)
      && out.vcfFile == Some([VcfHeader] + VcfLines(rows, IdentifyRequiredColumns(columns).value))
      && out.result == Ok(Converted(outputDir))
  {
    var timestamp := Basename(outputDir);
    var outputVcf := PathJoin(outputDir, OutputName);
    var required := IdentifyRequiredColumns(columns);
    if required.None? {
      return Conversion(None, Err(RuntimeError(FailurePrefix + MissingColumnsMessage)));
    }
    var cols := required.value;
    RectangularHasCells(columns, rows);
    var file := WriteVcf(rows, cols);
    return Conversion(Some(file), Ok(ParseResult(outputDir, outputVcf, timestamp)));
  }

  /** The lines written to the VCF file: the fixed header, then one line per row, in row order. */
  method WriteVcf(rows: seq<map<string, string>>, cols: RequiredColumns) returns (file: seq<string>)
    requires HasCells(rows, cols)
    ensures file == [VcfHeader] + VcfLines(rows, cols)
  {
    ghost var lines := VcfLines(rows, cols);
    file := [VcfHeader];
    var i := 0;
    while i < |rows|
      invariant 0 <= i <= |rows|
      invariant file == [VcfHeader] + lines[..i]
    {
      assert lines[..i + 1] == lines[..i] + [lines[i]];
      var row := rows[i];
      file := file + [VcfLine(row[cols.chrom], row[cols.pos], row[cols.ref], row[cols.alt])];
      i := i + 1;
    }
    assert lines[..i] == lines;
  }

  /** A written line, without its newline, splits on tabs into the eight VCF columns, with the
      row's values in CHROM, POS, REF and ALT and `.` elsewhere. */
  lemma VcfLineFields(chrom: string, pos: string, ref: string, alt: string)
    requires '\t' !in chrom && '\t' !in pos && '\t' !in ref && '\t' !in alt
    ensures var line := VcfLine(chrom, pos, ref, alt);
      && line[|line| - 1] == '\n'
      && Split(line[..|line| - 1], '\t') == [chrom, pos, ".", ref, alt, ".", ".", "."]
  {
    var parts := [chrom, pos, ".", ref, alt, ".", ".", "."];
    var line := VcfLine(chrom, pos, ref, alt);
    VcfLineJoins(chrom, pos, ref, alt);
    assert line[..|line| - 1] == Join(parts, '\t');
    SplitJoin(parts, '\t');
  }

  /** A written line is its eight columns joined by tabs, then a newline. */
  lemma VcfLineJoins(chrom: string, pos: string, ref: string, alt: string)
    ensures VcfLine(chrom, pos, ref, alt) == Join([chrom, pos, ".", ref, alt, ".", ".", "."], '\t') + "\n"
  {
    var q := [chrom, pos, ".", ref, alt];
    var b := chrom + "\t" + pos + "\t.\t" + ref + "\t" + alt;
    FirstFiveColumns(chrom, pos, ref, alt);
    JoinSnoc(q, ".", '\t');
    assert q + ["."] + ["."] == q + [".", "."];
    JoinSnoc(q + ["."], ".", '\t');
    assert q + [".", "."] + ["."] == q + [".", ".", "."];
    JoinSnoc(q + [".", "."], ".", '\t');
    assert q + [".", ".", "."] == [chrom, pos, ".", ref, alt, ".", ".", "."];
    assert b + "\t" + "." + "\t" + "." + "\t" + "." + "\n" == b + "\t.\t.\t.\n";
  }

  lemma FirstFiveColumns(chrom: string, pos: string, ref: string, alt: string)
    ensures Join([chrom, pos, ".", ref, alt], '\t') == chrom + "\t" + pos + "\t.\t" + ref + "\t" + alt
  {
    var a := chrom + "\t" + pos;
    JoinSnoc([chrom], pos, '\t');
    assert [chrom] + [pos] == [chrom, pos];
    JoinSnoc([chrom, pos], ".", '\t');
    assert [chrom, pos] + ["."] == [chrom, pos, "."];
    JoinSnoc([chrom, pos, "."], ref, '\t');
    assert [chrom, pos, "."] + [ref] == [chrom, pos, ".", ref];
    assert a + "\t" + "." + "\t" == a + "\t.\t";
    JoinSnoc([chrom, pos, ".", ref], alt, '\t');
    assert [chrom, pos, ".", ref] + [alt] == [chrom, pos, ".", ref, alt];
  }

  /** Handing a converted file to the dbNSFP pre-parser writes it back unchanged, as long as no
      chromosome value starts with `#`. */
  lemma ConvertedFileSurvivesDbnsfp(rows: seq<map<string, string>>, cols: RequiredColumns)
    requires HasCells(rows, cols)
    requires forall i :: 0 <= i < |rows| ==> !StartsWith(rows[i][cols.chrom], "#")
    ensures DbnsfpParsing.ProcessedLines([VcfHeader] + VcfLines(rows, cols)) == Ok([VcfHeader] + VcfLines(rows, cols))
  {
    var lines := VcfLines(rows, cols);
    forall i | 0 <= i < |lines| ensures DbnsfpParsing.IsDataLine(lines[i]) {
      RowLineIsData(rows[i], cols);
    }
    HeaderIsHeaderLine();
    DbnsfpParsing.HeaderThenDataUnchanged(VcfHeader, lines);
  }

  /** The fixed header is the `#CHROM` line the dbNSFP pre-parser looks for. */
  lemma HeaderIsHeaderLine()
    ensures DbnsfpParsing.IsHeaderLine(VcfHeader)
  {
    assert VcfHeader[..6] == "#CHROM";
  }

  /** A row whose chromosome does not start with `#` gives a line that does not either. */
  lemma RowLineIsData(row: map<string, string>, cols: RequiredColumns)
    requires cols.chrom in row && cols.pos in row && cols.ref in row && cols.alt in row
    requires !StartsWith(row[cols.chrom], "#")
    ensures DbnsfpParsing.IsDataLine(RowLine(row, cols))
  {
    var chrom := row[cols.chrom];
    var line := RowLine(row, cols);
    if chrom == [] {
      assert line[0] == '\t';
    } else {
      assert line[0] == chrom[0];
      assert chrom[..1] == [chrom[0]];
    }
    assert line[..1] == [line[0]];
  }
}
