/** The VCF parser: collects the leading `##` metadata lines of a VCF file and builds the variant
    table (CHROM, POS, ID, REF, ALT, QUAL, FILTER) from the callset that scikit-allel reads from it.
    The file is given as its lines (as iterating over the open file yields them) and the callset as a
    map from allel field name to column; reading the file, `allel.read_vcf` and `to_csv` are not
    modelled. */
module VcfParsing {
  import opened Wrappers
  import opened Text
  import opened BaseParser

  const DefaultOutputDir := "./data/processed"
  const ParsedName := "parsed_variants.csv"

  predicate IsMetadataLine(line: string) { StartsWith(line, "##") }

  // ---------------------------------------------------------------- metadata

  /** The number of lines before the first one that does not start with `##`. */
  function MetadataCount(lines: seq<string>): (n: nat)
    ensures n <= |lines|
    ensures forall i :: 0 <= i < n ==> IsMetadataLine(lines[i])
    ensures n < |lines| ==> !IsMetadataLine(lines[n])
  {
    if lines == [] || !IsMetadataLine(lines[0]) then 0 else 1 + MetadataCount(lines[1..])
  }

  /** The metadata of a file: its leading run of `##` lines, each stripped of surrounding
      whitespace, ending at the first line that does not start with `##`. */
  function LeadingMetadata(lines: seq<string>): (r: seq<string>)
    ensures |r| <= |lines|
    ensures forall i :: 0 <= i < |r| ==> IsMetadataLine(lines[i]) && r[i] == Strip(lines[i])
    ensures |r| < |lines| ==> !IsMetadataLine(lines[|r|])
  {
    var n := MetadataCount(lines);
    seq(n, i requires 0 <= i < n => Strip(lines[i]))
  }

  /** The three properties of `LeadingMetadata` determine it: the run is maximal, so no other
      sequence of stripped lines has them. */
  lemma LeadingMetadataUnique(lines: seq<string>, m: seq<string>)
    requires |m| <= |lines|
    requires forall i :: 0 <= i < |m| ==> IsMetadataLine(lines[i]) && m[i] == Strip(lines[i])
    requires |m| < |lines| ==> !IsMetadataLine(lines[|m|])
    ensures m == LeadingMetadata(lines)
  {
  }

  /** Every metadata line kept still starts with `##`: stripping only removes whitespace. */
  lemma MetadataStartsWithHashes(lines: seq<string>)
    ensures var m := LeadingMetadata(lines);
      forall i :: 0 <= i < |m| ==> StartsWith(m[i], "##")
  {
    var m := LeadingMetadata(lines);
    forall i | 0 <= i < |m| ensures StartsWith(m[i], "##") {
      StripKeepsPrefix(lines[i], "##");
    }
  }

  /** A header of `##` lines followed by a line that is not one yields exactly that header,
      whatever comes after. */
  lemma {:induction false} MetadataStopsAtFirstOtherLine(header: seq<string>, rest: seq<string>)
    requires forall i :: 0 <= i < |header| ==> IsMetadataLine(header[i])
    requires rest == [] || !IsMetadataLine(rest[0])
    ensures |LeadingMetadata(header + rest)| == |header|
  {
    if header != [] {
      assert (header + rest)[1..] == header[1..] + rest;
      MetadataStopsAtFirstOtherLine(header[1..], rest);
    } else {
      assert header + rest == rest;
    }
  }

  // ---------------------------------------------------------------- variants

  /** One entry of an allel callset column: missing (`None`), a single value, or a list or tuple
      of values. Values are kept as their text. */
  datatype Cell = Missing | Scalar(text: string) | Sequence(items: seq<string>)

  /** The fields read from the file: allel field name to column. */
  type Callset = map<string, seq<Cell>>

  /** What `parse` raises. */
  datatype VcfError =
    | FileNotFound(path: string) // the input file does not exist
    | KeyError(key: string)      // a field the code indexes directly is absent from the callset
    | TypeError                  // `allel.read_vcf` found no variants and returned None
    | ValueError                 // the columns handed to the DataFrame differ in length

  const ChromField := "variants/CHROM"
  const PosField := "variants/POS"
  const IdField := "variants/ID"
  const RefField := "variants/REF"
  const AltField := "variants/ALT"
  const QualField := "variants/QUAL"
  const FilterField := "variants/FILTER_PASS"

  /** A one-element list or tuple stands for its element; anything else is kept as it is. */
  function Unwrap(item: Cell): (r: Cell)
    ensures r.Sequence? ==> |r.items| != 1
    ensures r != item ==> r.Scalar? && item == Sequence([r.text])
  {
    if item.Sequence? && |item.items| == 1 then Scalar(item.items[0]) else item
  }

  /** `flatten_field(field, default_value)`: the field's column with one-element lists unwrapped,
      or, when the callset lacks the field, one default per POS entry. */
  function FlattenField(callset: Option<Callset>, field: string, default: Cell): (r: Result<seq<Cell>, VcfError>)
    ensures callset.None? ==> r == Err(TypeError)
    ensures callset.Some? && field in callset.value ==> (
      var column := callset.value[field];
      && r.Ok? && |r.value| == |column|
      && forall i :: 0 <= i < |column| ==>
        if column[i].Sequence? && |column[i].items| == 1 then r.value[i] == Scalar(column[i].items[0])
        else r.value[i] == column[i])
    ensures callset.Some? && field !in callset.value && PosField in callset.value ==> (
      && r.Ok? && |r.value| == |callset.value[PosField]|
      && forall i :: 0 <= i < |r.value| ==> r.value[i] == default)
    ensures callset.Some? && field !in callset.value && PosField !in callset.value ==> r == Err(KeyError(PosField))
  {
    if callset.None? then Err(TypeError)
    else if field in callset.value then
      var column := callset.value[field];
      Ok(seq(|column|, i requires 0 <= i < |column| => Unwrap(column[i])))
    else if PosField in callset.value then Ok(seq(|callset.value[PosField]|, _ => default))
    else Err(KeyError(PosField))
  }

  /** Flattening a flattened column changes nothing. */
  lemma FlattenFieldIdempotent(callset: Callset, field: string, default: Cell)
    requires field in callset
    ensures var flat := FlattenField(Some(callset), field, default).value;
      FlattenField(Some(callset[field := flat]), field, default) == Ok(flat)
  {
    var flat := FlattenField(Some(callset), field, default).value;
    var again := FlattenField(Some(callset[field := flat]), field, default).value;
    forall i | 0 <= i < |flat| ensures again[i] == flat[i] {
      assert flat[i] == Unwrap(callset[field][i]);
    }
    assert again == flat;
  }

  /** A column of one-element lists flattens to the column of their elements. */
  lemma FlattenSingletons(callset: Callset, field: string, default: Cell, values: seq<string>)
    requires field in callset && callset[field] == seq(|values|, i requires 0 <= i < |values| => Sequence([values[i]]))
    ensures FlattenField(Some(callset), field, default) == Ok(seq(|values|, i requires 0 <= i < |values| => Scalar(values[i])))
  {
    var flat := FlattenField(Some(callset), field, default).value;
    var scalars := seq(|values|, i requires 0 <= i < |values| => Scalar(values[i]));
    forall i | 0 <= i < |values| ensures flat[i] == scalars[i] {
      assert callset[field][i] == Sequence([values[i]]);
    }
    assert flat == scalars;
  }

  /** A list or tuple of alternate alleles becomes one `|`-separated value. */
  function JoinAlleles(alleles: Cell): (r: Cell)
    ensures !r.Sequence?
    ensures !alleles.Sequence? ==> r == alleles
  {
    if alleles.Sequence? then Scalar(Join(alleles.items, '|')) else alleles
  }

  /** The ALT column: `callset['variants/ALT']` with every list of alleles joined by `|`. */
  function AltColumn(callset: Option<Callset>): (r: Result<seq<Cell>, VcfError>)
    ensures callset.None? ==> r == Err(TypeError)
    ensures callset.Some? ==> (r.Ok? <==> AltField in callset.value)
    ensures callset.Some? && AltField !in callset.value ==> r == Err(KeyError(AltField))
    ensures r.Ok? ==> (
      var column := callset.value[AltField];
      && |r.value| == |column|
      && forall i :: 0 <= i < |column| ==>
        && !r.value[i].Sequence?
        && (column[i].Sequence? ==> r.value[i] == Scalar(Join(column[i].items, '|')))
        && (!column[i].Sequence? ==> r.value[i] == column[i]))
  {
    if callset.None? then Err(TypeError)
    else if AltField !in callset.value then Err(KeyError(AltField))
    else
      var column := callset.value[AltField];
      Ok(seq(|column|, i requires 0 <= i < |column| => JoinAlleles(column[i])))
  }

  /** Splitting a joined ALT value at `|` gives back the alleles, when no allele contains `|`. */
  lemma AllelesRoundTrip(alleles: seq<string>)
    requires alleles != []
    requires forall i :: 0 <= i < |alleles| ==> '|' !in alleles[i]
    ensures JoinAlleles(Sequence(alleles)).Scalar?
    ensures Split(JoinAlleles(Sequence(alleles)).text, '|') == alleles
  {
    SplitJoin(alleles, '|');
  }

  /** The variant table: the seven columns of the DataFrame, in order. */
  datatype Variants = Variants(
    chrom: seq<Cell>, pos: seq<Cell>, id: seq<Cell>, ref: seq<Cell>, alt: seq<Cell>, qual: seq<Cell>, filter: seq<Cell>)
  {
    function Columns(): seq<seq<Cell>> { [chrom, pos, id, ref, alt, qual, filter] }
  }

  /** Every column the table reads from the callset, in the order the table lists them. */
  const TableFields: seq<string> := [ChromField, PosField, IdField, RefField, AltField, QualField, FilterField]

  /** Every field present in the callset has as many entries as POS. */
  predicate Aligned(callset: Callset)
    requires PosField in callset
  {
    forall i :: 0 <= i < |TableFields| && TableFields[i] in callset ==> |callset[TableFields[i]]| == |callset[PosField]|
  }

  /** `_extract_variants` on the callset allel read. The columns are built in the order of the
      dictionary literal, so the first failing one decides the error; the DataFrame then rejects
      columns of different lengths. */
  function ExtractVariants(callset: Option<Callset>): (r: Result<Variants, VcfError>)
    ensures callset.None? ==> r == Err(TypeError)
    ensures callset.Some? && PosField !in callset.value ==> r == Err(KeyError(PosField))
    ensures callset.Some? && PosField in callset.value && AltField !in callset.value ==> r == Err(KeyError(AltField))
    ensures callset.Some? && PosField in callset.value && AltField in callset.value && r.Err? ==> r == Err(ValueError)
    ensures r.Ok? ==> (
      && callset.Some? && PosField in callset.value && AltField in callset.value
      && forall i :: 0 <= i < 7 ==> |r.value.Columns()[i]| == |callset.value[PosField]|)
    ensures r.Ok? ==> (
      && r.value.chrom == FlattenField(callset, ChromField, Missing).value
      && r.value.pos == FlattenField(callset, PosField, Missing).value
      && r.value.id == FlattenField(callset, IdField, Scalar(".")).value
      && r.value.ref == FlattenField(callset, RefField, Missing).value
      && r.value.alt == AltColumn(callset).value
      && r.value.qual == FlattenField(callset, QualField, Scalar(".")).value
      && r.value.filter == FlattenField(callset, FilterField, Scalar("PASS")).value)
  {
    var chrom := FlattenField(callset, ChromField, Missing);
    var pos := FlattenField(callset, PosField, Missing);
    var id := FlattenField(callset, IdField, Scalar("."));
    var ref := FlattenField(callset, RefField, Missing);
    var alt := AltColumn(callset);
    var qual := FlattenField(callset, QualField, Scalar("."));
    var filter := FlattenField(callset, FilterField, Scalar("PASS"));
    // Once POS is built the callset exists and has POS, so no other flattened column can fail.
    if chrom.Err? then Err(chrom.error)
    else if pos.Err? then Err(pos.error)
    else if alt.Err? then Err(alt.error)
    else
      var n := |chrom.value|;
      if |pos.value| != n || |id.value| != n || |ref.value| != n || |alt.value| != n
        || |qual.value| != n || |filter.value| != n then Err(ValueError)
      else Ok(Variants(chrom.value, pos.value, id.value, ref.value, alt.value, qual.value, filter.value))
  }

  /** The table is built exactly when the callset has POS and ALT and every field it has is as
      long as POS; absent ID, QUAL and FILTER columns are filled with `.`, `.` and `PASS`. */
  lemma ExtractVariantsSucceeds(callset: Callset)
    ensures ExtractVariants(Some(callset)).Ok? <==> PosField in callset && AltField in callset && Aligned(callset)
    ensures ExtractVariants(Some(callset)).Ok? ==> (
      var v := ExtractVariants(Some(callset)).value;
      && (IdField !in callset ==> forall i :: 0 <= i < |v.id| ==> v.id[i] == Scalar("."))
      && (QualField !in callset ==> forall i :: 0 <= i < |v.qual| ==> v.qual[i] == Scalar("."))
      && (FilterField !in callset ==> forall i :: 0 <= i < |v.filter| ==> v.filter[i] == Scalar("PASS")))
  {
    var r := ExtractVariants(Some(callset));
    if PosField in callset && AltField in callset {
      var n := |callset[PosField]|;
      if r.Ok? {
        var cols := r.value.Columns();
        forall i | 0 <= i < |TableFields| && TableFields[i] in callset
          ensures |callset[TableFields[i]]| == n
        {
          if i == 4 {
            assert |cols[4]| == |callset[AltField]|;
          } else {
            assert |cols[i]| == |FlattenField(Some(callset), TableFields[i], Missing).value|;
          }
        }
      }
      if Aligned(callset) {
        assert TableFields[0] == ChromField && TableFields[2] == IdField && TableFields[3] == RefField;
        assert TableFields[4] == AltField && TableFields[5] == QualField && TableFields[6] == FilterField;
      }
    }
  }

  // ---------------------------------------------------------------- the parser object

  /** `VCFParser(file_path, output_dir)`: the paths it was made with, and the metadata and
      variants of the last `parse` (None before one). */
  class VcfParser {
    const filePath: string
    const outputDir: string
    var metadata: Option<seq<string>>
    var variants: Option<Variants>

    constructor(filePath: string, outputDir: string := DefaultOutputDir)
      ensures this.filePath == filePath && this.outputDir == outputDir
      ensures metadata.None? && variants.None?
    {
      this.filePath := filePath;
      this.outputDir := outputDir;
      metadata := None;
      variants := None;
    }

    /** `_extract_metadata` on the file's lines: appends each stripped `##` line and stops at the
        first other line. */
    method ExtractMetadata(lines: seq<string>) returns (found: seq<string>)
      ensures |found| <= |lines|
      ensures forall i :: 0 <= i < |found| ==> IsMetadataLine(lines[i]) && found[i] == Strip(lines[i])
      ensures |found| < |lines| ==> !IsMetadataLine(lines[|found|])
      ensures found == LeadingMetadata(lines)
    {
      found := [];
      var i := 0;
      while i < |lines|
        invariant 0 <= i <= |lines| && |found| == i
        invariant forall k :: 0 <= k < i ==> IsMetadataLine(lines[k]) && found[k] == Strip(lines[k])
      {
        if IsMetadataLine(lines[i]) {
          found := found + [Strip(lines[i])];
        } else {
          break;
        }
        i := i + 1;
      }
      LeadingMetadataUnique(lines, found);
    }

    /** `parse()`. `fileExists` and `outputDirExists` are what `os.path.exists` answers, `lines`
        the file's lines and `callset` what allel reads from it. Returns the result, whether the
        output folder was created, and the path and table written to `parsed_variants.csv`. */
    method Parse(fileExists: bool, outputDirExists: bool, lines: seq<string>, callset: Option<Callset>)
      returns (result: Result<(seq<string>, Variants), VcfError>, madeDir: bool, written: Option<(string, Variants)>)
      modifies this
      ensures !fileExists ==> (
        && result == Err(FileNotFound(filePath)) && !madeDir && written.None?
        && metadata == old(metadata) && variants == old(variants))
      ensures fileExists ==> madeDir == !outputDirExists && metadata == Some(LeadingMetadata(lines))
      ensures fileExists ==> match ExtractVariants(callset)
        case Err(e) => result == Err(e) && written.None? && variants == old(variants)
        case Ok(v) =>
          && result == Ok((LeadingMetadata(lines), v)) && variants == Some(v)
          && written == Some((PathJoin(outputDir, ParsedName), v))
    {
      if !fileExists {
        return Err(FileNotFound(filePath)), false, None;
      }
      madeDir := !outputDirExists;
      var found := ExtractMetadata(lines);
      metadata := Some(found);
      match ExtractVariants(callset) {
        case Err(e) =>
          return Err(e), madeDir, None;
        case Ok(v) =>
          variants := Some(v);
          written := Some((PathJoin(outputDir, ParsedName), v));
          result := Ok((found, v));
      }
    }
  }
}
