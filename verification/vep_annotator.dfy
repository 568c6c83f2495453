/** The VEP annotator: reads ClinVar records into a lookup table, and enriches each row of the
    pre-parsed CSV with the Ensembl VEP consequence, impact and gene, the ClinVar significance and
    id, the variant's end position and whether it is a reference call. The Ensembl REST service is
    a parameter: a function from the requested URL to the response. */
module VepAnnotation {
  import opened Wrappers
  import opened Text
  import opened Seqs

  // ---------------------------------------------------------------- INFO field extractors

  predicate IsEndEntry(entry: string) { StartsWith(entry, "END=") }

  /** `_extract_end_position(info)`: the text after `END=` (up to any further `=`) of the first
      `;`-separated entry starting with `END=`, or None when no entry does. */
  function ExtractEndPosition(info: string): (r: Option<string>)
    ensures r.None? <==> forall i :: 0 <= i < |Split(info, ';')| ==> !IsEndEntry(Split(info, ';')[i])
    ensures r.Some? ==> ';' !in r.value && '=' !in r.value
  {
    var entries := Split(info, ';');
    match FirstIndex(entries, IsEndEntry)
    case None => None
    case Some(i) =>
      assert entries[i][3] == "END="[3];
      CountIn(entries[i], '=');
      var value := Split(entries[i], '=')[1];
      assert value in Split(entries[i], '=');
      assert forall c :: c in value ==> c in entries[i] by {
        SplitPiecesInside(entries[i], '=', 1);
      }
      Some(value)
  }

  /** Every piece of a split is a substring of the split text. */
  lemma {:induction false} SplitPiecesInside(s: string, sep: char, k: nat)
    requires k < |Split(s, sep)|
    ensures forall c :: c in Split(s, sep)[k] ==> c in s
  {
    if s != [] {
      var rest := Split(s[1..], sep);
      if s[0] == sep {
        if k > 0 {
          SplitPiecesInside(s[1..], sep, k - 1);
        }
      } else {
        SplitPiecesInside(s[1..], sep, k);
      }
    }
  }

  /** An `END=` entry without a further `=` splits into its key and its value. */
  lemma EndEntrySplit(value: string)
    requires '=' !in value
    ensures Split("END=" + value, '=') == ["END", value]
  {
    assert "END=" + value == "END" + ['='] + value;
    SplitAfterPiece("END", value, '=');
    SplitWithoutSeparator(value, '=');
  }

  /** An INFO field whose first `END=` entry carries `value` gives back that value. */
  lemma EndPositionOf(entries: seq<string>, k: nat, value: string)
    requires forall i :: 0 <= i < |entries| ==> ';' !in entries[i]
    requires k < |entries| && entries[k] == "END=" + value && '=' !in value
    requires forall i :: 0 <= i < k ==> !IsEndEntry(entries[i])
    ensures ExtractEndPosition(Join(entries, ';')) == Some(value)
  {
    SplitJoin(entries, ';');
    assert entries[k][..4] == "END=";
    assert FirstIndex(entries, IsEndEntry) == Some(k);
    EndEntrySplit(value);
  }

  const ClnsigKey := "CLNSIG="

  /** `_extract_clinvar_significance(info)`: after the first `CLNSIG=`, the text up to the next `;`
      or the end of the field; `''` when `CLNSIG=` does not occur. */
  function ExtractClinvarSignificance(info: string): (r: string)
    ensures Find(info, ClnsigKey).None? ==> r == ""
    ensures ';' !in r
    ensures Find(info, ClnsigKey).Some? ==>
      var start := Find(info, ClnsigKey).value + |ClnsigKey|;
      && start + |r| <= |info| && info[start..start + |r|] == r
      && (start + |r| == |info| || info[start + |r|] == ';')
  {
    match Find(info, ClnsigKey)
    case None => ""
    case Some(k) =>
      var start := k + |ClnsigKey|;
      var rest := info[start..];
      match Find(rest, ";")
      case None =>
        NoSemicolonBefore(rest, |rest|);
        assert rest[..|rest|] == rest;
        rest
      case Some(e) =>
        NoSemicolonBefore(rest, e);
        assert rest[e..e + 1] == ";";
        rest[..e]
  }

  /** The first `CLNSIG=` of `before + "CLNSIG=" + ...` is the one after `before`, when `before`
      holds none and is empty or ends an entry. */
  lemma ClnsigFoundAfter(before: string, rest: string)
    requires before == [] || before[|before| - 1] == ';'
    requires Find(before, ClnsigKey).None?
    ensures Find(before + ClnsigKey + rest, ClnsigKey) == Some(|before|)
  {
    var info := before + ClnsigKey + rest;
    assert info[|before|..|before| + |ClnsigKey|] == ClnsigKey;
    assert OccursAt(info, ClnsigKey, |before|);
    forall j: nat | j < |before| ensures !OccursAt(info, ClnsigKey, j) {
      if j + |ClnsigKey| <= |before| {
        assert !OccursAt(before, ClnsigKey, j);
        assert info[j..j + |ClnsigKey|] == before[j..j + |ClnsigKey|];
      } else {
        // the `;` that ends `before` falls inside the window, where `CLNSIG=` has no `;`
        var d := |before| - 1 - j;
        assert info[j..j + |ClnsigKey|][d] == ';';
        assert ClnsigKey[d] != ';';
        assert info[j..j + |ClnsigKey|] != ClnsigKey;
      }
    }
  }

  /** In a `;`-free text followed by nothing or by `;`, the first `;` is right after the text. */
  lemma SemicolonAfter(value: string, after: string)
    requires ';' !in value
    requires after == [] || after[0] == ';'
    ensures Find(value + after, ";") == if after == [] then None else Some(|value|)
  {
    var s := value + after;
    forall j: nat | j < |value| ensures !OccursAt(s, ";", j) {
      assert s[j..j + 1] == [value[j]];
    }
    if after == [] {
      assert s == value;
      forall j: nat ensures !OccursAt(s, ";", j) {
        if j < |value| {
          assert s[j..j + 1] == [value[j]];
        }
      }
    } else {
      assert s[|value|..|value| + 1] == ";";
      assert OccursAt(s, ";", |value|);
    }
  }

  /** The significance is the `;`-free text that follows `CLNSIG=` up to a `;` or the end. */
  lemma ClinvarSignificanceAt(info: string, k: nat, value: string, after: string)
    requires Find(info, ClnsigKey) == Some(k)
    requires k + |ClnsigKey| <= |info| && info[k + |ClnsigKey|..] == value + after
    requires ';' !in value
    requires after == [] || after[0] == ';'
    ensures ExtractClinvarSignificance(info) == value
  {
    var rest := info[k + |ClnsigKey|..];
    SemicolonAfter(value, after);
    if after == [] {
      assert rest == value;
    } else {
      assert rest[..|value|] == value;
    }
  }

  /** An INFO field whose first `CLNSIG=` entry carries `value` gives back that value. */
  lemma ClinvarSignificanceOf(before: string, value: string, after: string)
    requires before == [] || before[|before| - 1] == ';'
    requires Find(before, ClnsigKey).None?
    requires ';' !in value
    requires after == [] || after[0] == ';'
    ensures ExtractClinvarSignificance(before + ClnsigKey + value + after) == value
  {
    var info := before + ClnsigKey + value + after;
    var rest := value + after;
    assert info == before + ClnsigKey + rest;
    ClnsigFoundAfter(before, rest);
    assert info[|before| + |ClnsigKey|..] == rest;
    ClinvarSignificanceAt(info, |before|, value, after);
  }

  /** A text holds no `;` before the first place `;` is found. */
  lemma NoSemicolonBefore(s: string, e: nat)
    requires e <= |s|
    requires forall j: nat :: OccursAt(s, ";", j) ==> e <= j
    ensures ';' !in s[..e]
  {
    forall j | 0 <= j < e ensures s[..e][j] != ';' {
      assert !OccursAt(s, ";", j);
      assert s[j..j + 1] == [s[j]];
    }
  }

  // ---------------------------------------------------------------- ClinVar table

  /** What a ClinVar line records for its variant: `{'id': ..., 'info': ...}`. */
  datatype ClinVarRecord = ClinVarRecord(id: string, info: string)

  /** `f"{chrom}:{pos}:{ref}>{alt}"`, the key of both the ClinVar table and a variant. */
  function ClinVarKey(chrom: string, pos: string, ref: string, alt: string): (r: string)
    ensures |r| == |chrom| + |pos| + |ref| + |alt| + 3
    ensures r[..|chrom|] == chrom && r[|chrom|] == ':'
    ensures r[|r| - |alt| - 1..] == ">" + alt
  {
    chrom + ":" + pos + ":" + ref + ">" + alt
  }

  /** The key splits back at `:` into the chromosome, the position and `REF>ALT`, when none of the
      four parts holds a `:`. */
  lemma ClinVarKeySplits(chrom: string, pos: string, ref: string, alt: string)
    requires ':' !in chrom && ':' !in pos && ':' !in ref && ':' !in alt
    ensures Split(ClinVarKey(chrom, pos, ref, alt), ':') == [chrom, pos, ref + ">" + alt]
  {
    var last := ref + ">" + alt;
    assert ':' !in last;
    JoinSnoc([chrom], pos, ':');
    assert [chrom] + [pos] == [chrom, pos];
    JoinSnoc([chrom, pos], last, ':');
    assert [chrom, pos] + [last] == [chrom, pos, last];
    assert ClinVarKey(chrom, pos, ref, alt) == chrom + ":" + pos + ":" + last;
    SplitJoin([chrom, pos, last], ':');
  }

  /** The key and record one line of the ClinVar VCF adds: none for a `#` line or a line of seven
      tab fields or fewer. */
  function ClinVarEntry(line: string): (r: Option<(string, ClinVarRecord)>)
    ensures r.Some? <==> !StartsWith(line, "#") && |Split(Strip(line), '\t')| > 7
    ensures r.Some? ==> var fields := Split(Strip(line), '\t');
      && r.value.0 == ClinVarKey(fields[0], fields[1], fields[3], fields[4])
      && r.value.1.id == fields[2] && r.value.1.info == fields[7]
  {
    if StartsWith(line, "#") then None
    else
      var fields := Split(Strip(line), '\t');
      if |fields| > 7 then Some((ClinVarKey(fields[0], fields[1], fields[3], fields[4]), ClinVarRecord(fields[2], fields[7])))
      else None
  }

  /** What the lines add, line by line. */
  type Entry = Option<(string, ClinVarRecord)>

  /** The dictionary built from the entries, in order, a later record for a key replacing an
      earlier one. */
  function TableOf(entries: seq<Entry>): map<string, ClinVarRecord> {
    if entries == [] then map[]
    else
      var prev := TableOf(entries[..|entries| - 1]);
      match entries[|entries| - 1]
      case None => prev
      case Some(entry) => prev[entry.0 := entry.1]
  }

  /** The entries of the lines, in order. */
  function Entries(lines: seq<string>): (r: seq<Entry>)
    ensures |r| == |lines|
    ensures forall i :: 0 <= i < |lines| ==> r[i] == ClinVarEntry(lines[i])
  {
    if lines == [] then []
    else Entries(lines[..|lines| - 1]) + [ClinVarEntry(lines[|lines| - 1])]
  }

  /** The dictionary `_load_clinvar_data` builds from the ClinVar lines. */
  function ClinVarTable(lines: seq<string>): map<string, ClinVarRecord> {
    TableOf(Entries(lines))
  }

  /** `entry` adds a record under `key`. */
  predicate RecordsKey(entry: Entry, key: string) {
    entry.Some? && entry.value.0 == key
  }

  /** The table holds exactly the keys some entry records. */
  lemma {:induction false} TableKeys(entries: seq<Entry>, key: string)
    ensures key in TableOf(entries) <==> exists i :: 0 <= i < |entries| && RecordsKey(entries[i], key)
  {
    if entries != [] {
      var init := entries[..|entries| - 1];
      TableKeys(init, key);
      if exists i :: 0 <= i < |init| && RecordsKey(init[i], key) {
        var i :| 0 <= i < |init| && RecordsKey(init[i], key);
        assert entries[i] == init[i];
      }
      if exists i :: 0 <= i < |entries| && RecordsKey(entries[i], key) {
        var i :| 0 <= i < |entries| && RecordsKey(entries[i], key);
        if i < |init| {
          assert init[i] == entries[i];
        }
      }
    }
  }

  /** A key maps to the record of the last entry that records it. */
  lemma {:induction false} TableLastWins(entries: seq<Entry>, i: nat)
    requires i < |entries| && entries[i].Some?
    requires forall j :: i < j < |entries| ==> !RecordsKey(entries[j], entries[i].value.0)
    ensures entries[i].value.0 in TableOf(entries)
    ensures TableOf(entries)[entries[i].value.0] == entries[i].value.1
  {
    var init := entries[..|entries| - 1];
    if i < |init| {
      assert init[i] == entries[i];
      forall j | i < j < |init| ensures !RecordsKey(init[j], init[i].value.0) {
        assert init[j] == entries[j];
      }
      TableLastWins(init, i);
      assert !RecordsKey(entries[|entries| - 1], entries[i].value.0);
    }
  }

  /** The ClinVar table holds exactly the keys some line records, each with the record of the last
      line that records it. */
  lemma ClinVarTableLookup(lines: seq<string>, key: string)
    ensures key in ClinVarTable(lines) <==> exists i :: 0 <= i < |lines| && RecordsKey(ClinVarEntry(lines[i]), key)
    ensures forall i :: (
      && 0 <= i < |lines| && RecordsKey(ClinVarEntry(lines[i]), key)
      && (forall j :: i < j < |lines| ==> !RecordsKey(ClinVarEntry(lines[j]), key))) ==>
      key in ClinVarTable(lines) && ClinVarTable(lines)[key] == ClinVarEntry(lines[i]).value.1
  {
    var entries := Entries(lines);
    TableKeys(entries, key);
    forall i | 0 <= i < |lines| && RecordsKey(ClinVarEntry(lines[i]), key)
      && (forall j :: i < j < |lines| ==> !RecordsKey(ClinVarEntry(lines[j]), key))
      ensures key in ClinVarTable(lines) && ClinVarTable(lines)[key] == ClinVarEntry(lines[i]).value.1
    {
      TableLastWins(entries, i);
    }
  }

  /** `_load_clinvar_data`: the loop filling the dictionary from the file's lines. */
  method LoadClinVarData(lines: seq<string>) returns (data: map<string, ClinVarRecord>)
    ensures data == ClinVarTable(lines)
  {
    data := map[];
    for i := 0 to |lines|
      invariant data == ClinVarTable(lines[..i])
    {
      assert lines[..i + 1][..i] == lines[..i];
      assert Entries(lines[..i + 1]) == Entries(lines[..i]) + [ClinVarEntry(lines[i])];
      var line := lines[i];
      if !StartsWith(line, "#") {
        var fields := Split(Strip(line), '\t');
        if |fields| > 7 {
          var key := ClinVarKey(fields[0], fields[1], fields[3], fields[4]);
          data := data[key := ClinVarRecord(fields[2], fields[7])];
        }
      }
    }
    assert lines[..|lines|] == lines;
  }

  // ---------------------------------------------------------------- Ensembl VEP query

  const VepBaseUrl := "https://rest.ensembl.org/vep/human/region/"

  /** The parts of the decoded JSON the annotator reads; a key that is absent is None. */
  datatype Transcript = Transcript(impact: Option<string>, geneSymbol: Option<string>)
  datatype VepHit = VepHit(mostSevereConsequence: Option<string>, transcriptConsequences: Option<seq<Transcript>>)

  /** The answer of the REST service to a request: a status code and the decoded body, or a
      `RequestException`. */
  datatype Response = Response(statusCode: int, hits: seq<VepHit>) | RequestFailed

  /** The guard of `_query_ensembl_vep`: no request for a reference call or a missing ALT. */
  predicate SkipsQuery(alt: string) { alt == "." || alt == "" }

  /** `f"{chrom.replace('chr', '')}:{start}-{end}"` */
  function Region(chrom: string, start: string, end: string): (r: string)
    ensures |start| + |end| + 2 <= |r| <= |chrom| + |start| + |end| + 2
    ensures r[|r| - |start| - |end| - 2..] == ":" + start + "-" + end
  {
    RemoveAll(chrom, "chr") + ":" + start + "-" + end
  }

  function QueryUrl(chrom: string, start: string, end: string, alt: string): (r: string)
    ensures |r| >= |VepBaseUrl| + |alt| + 1
    ensures r[..|VepBaseUrl|] == VepBaseUrl
    ensures r[|r| - |alt| - 1..] == "/" + alt
  {
    VepBaseUrl + Region(chrom, start, end) + "/" + alt
  }

  /** A `chr` prefix is dropped from the chromosome, and a chromosome without `chr` is kept. */
  lemma RegionDropsChr(chrom: string, start: string, end: string)
    requires Find(chrom, "chr").None?
    ensures Region("chr" + chrom, start, end) == chrom + ":" + start + "-" + end
    ensures Region(chrom, start, end) == chrom + ":" + start + "-" + end
  {
    var c := "chr" + chrom;
    assert c[..3] == "chr" && c[3..] == chrom;
    RemoveAllAbsent(chrom, "chr");
  }

  /** The request fails: an exception, or a status other than 200. */
  predicate QueryFails(chrom: string, start: string, end: string, alt: string, server: string -> Response) {
    !SkipsQuery(alt) && match server(QueryUrl(chrom, start, end, alt))
      case RequestFailed => true
      case Response(status, _) => status != 200
  }

  /** What `_query_ensembl_vep` returns: None when it skips, the decoded hits for status 200, and
      `{}` (no hits) when the request fails. */
  function QueryReply(chrom: string, start: string, end: string, alt: string, server: string -> Response): (r: Option<seq<VepHit>>)
    ensures r.None? <==> SkipsQuery(alt)
    ensures QueryFails(chrom, start, end, alt, server) ==> r == Some([])
  {
    if SkipsQuery(alt) then None
    else match server(QueryUrl(chrom, start, end, alt))
      case RequestFailed => Some([])
      case Response(status, hits) => if status == 200 then Some(hits) else Some([])
  }

  // ---------------------------------------------------------------- row enrichment

  /** A row of the CSV as `csv.DictReader` yields it: column name to cell. */
  type Row = map<string, string>

  const AnnotationColumns: seq<string> := [
    "VEP_Consequence", "VEP_Impact", "VEP_Gene", "ClinVar_Significance", "ClinVar_ID",
    "Variant_End_Position", "Is_Reference"]

  /** What `annotate_variants` raises. */
  datatype AnnotateError =
    | KeyError(key: string) // `row[key]` on a row without that column
    | IndexError            // `transcript_consequences` is an empty list
    | TypeError             // the input has no header row, so `reader.fieldnames` is None

  /** `d.get(key, default)` */
  function Get(row: Row, key: string, default: string): string {
    if key in row then row[key] else default
  }

  /** `_extract_end_position(row.get('INFO', '')) or row['POS']` */
  function EndPosition(row: Row): (r: Result<string, AnnotateError>)
    ensures r.Err? <==> "POS" !in row && (ExtractEndPosition(Get(row, "INFO", "")).None? || ExtractEndPosition(Get(row, "INFO", "")).value == "")
    ensures r.Err? ==> r.error == KeyError("POS")
    ensures var e := ExtractEndPosition(Get(row, "INFO", ""));
      e.Some? && e.value != "" ==> r == Ok(e.value)
    ensures var e := ExtractEndPosition(Get(row, "INFO", ""));
      (e.None? || e.value == "") && "POS" in row ==> r == Ok(row["POS"])
  {
    var end := ExtractEndPosition(Get(row, "INFO", ""));
    if end.Some? && end.value != "" then Ok(end.value)
    else if "POS" in row then Ok(row["POS"])
    else Err(KeyError("POS"))
  }

  const VepColumns: seq<string> := ["VEP_Consequence", "VEP_Impact", "VEP_Gene"]

  /** The VEP columns filled from a query's reply (lines 200-206 of the source): the first hit's
      consequence, and the impact and gene of its first transcript. A reply without hits leaves the
      row as it is; a hit whose transcript list is empty raises IndexError. */
  function WithVep(out: Row, reply: Option<seq<VepHit>>): (r: Result<Row, AnnotateError>)
    requires "VEP_Consequence" in out && "VEP_Impact" in out && "VEP_Gene" in out
    ensures r.Err? <==> reply.Some? && reply.value != [] && reply.value[0].transcriptConsequences == Some([])
    ensures r.Err? ==> r.error == IndexError
    ensures reply.None? || reply.value == [] ==> r == Ok(out)
    ensures r.Ok? ==> r.value.Keys == out.Keys
    ensures r.Ok? ==> forall k :: k in out && k !in VepColumns ==> r.value[k] == out[k]
    ensures r.Ok? && reply.Some? && reply.value != [] ==>
      r.value["VEP_Consequence"] == reply.value[0].mostSevereConsequence.GetOr("")
    ensures r.Ok? && reply.Some? && reply.value != [] && reply.value[0].transcriptConsequences.None? ==>
      r.value["VEP_Impact"] == out["VEP_Impact"] && r.value["VEP_Gene"] == out["VEP_Gene"]
    ensures r.Ok? && reply.Some? && reply.value != [] && reply.value[0].transcriptConsequences.Some? ==>
      var first := reply.value[0].transcriptConsequences.value[0];
      r.value["VEP_Impact"] == first.impact.GetOr("") && r.value["VEP_Gene"] == first.geneSymbol.GetOr("")
  {
    if reply.None? || reply.value == [] then Ok(out)
    else
      var first := reply.value[0];
      var withConsequence := out["VEP_Consequence" := first.mostSevereConsequence.GetOr("")];
      match first.transcriptConsequences
      case None => Ok(withConsequence)
      case Some(transcripts) =>
        if transcripts == [] then Err(IndexError)
        else Ok(withConsequence["VEP_Impact" := transcripts[0].impact.GetOr("")]["VEP_Gene" := transcripts[0].geneSymbol.GetOr("")])
  }

  /** The ClinVar columns filled from the record under `key`, or from an empty record. */
  function WithClinVar(out: Row, key: string, clinvar: map<string, ClinVarRecord>): (r: Row)
    ensures r.Keys == out.Keys + {"ClinVar_Significance", "ClinVar_ID"}
    ensures forall k :: k in out && k != "ClinVar_Significance" && k != "ClinVar_ID" ==> r[k] == out[k]
  {
    var info := if key in clinvar then clinvar[key].info else "";
    var id := if key in clinvar then clinvar[key].id else "";
    out["ClinVar_Significance" := ExtractClinvarSignificance(info)]["ClinVar_ID" := id]
  }

  /** The outcome of annotating one row, with the requests it made and the failed requests. */
  datatype RowStep = RowStep(result: Result<Row, AnnotateError>, calls: nat, errors: nat)

  /** The row with its seven annotation columns set to empty, except the end position and the
      reference flag. */
  function InitialAnnotation(row: Row, endPos: string): (r: Row)
    requires "ALT" in row
    ensures forall k :: k in r <==> k in row || k in AnnotationColumns
    ensures forall k :: k in row && k !in AnnotationColumns ==> r[k] == row[k]
    ensures r["Variant_End_Position"] == endPos
    ensures r["Is_Reference"] == "Yes" <==> row["ALT"] == "."
    ensures forall i :: 0 <= i < 5 ==> r[AnnotationColumns[i]] == ""
  {
    row["VEP_Consequence" := ""]["VEP_Impact" := ""]["VEP_Gene" := ""]["ClinVar_Significance" := ""]
      ["ClinVar_ID" := ""]["Variant_End_Position" := endPos]
      ["Is_Reference" := if row["ALT"] == "." then "Yes" else "No"]
  }

  /** One pass of the loop of `annotate_variants` on `row`. */
  function AnnotateRow(row: Row, clinvar: map<string, ClinVarRecord>, server: string -> Response): (step: RowStep)
    ensures step.calls <= 1 && step.errors <= step.calls
    ensures step.calls == 1 ==> "ALT" in row && row["ALT"] != "."
  {
    match EndPosition(row)
    case Err(e) => RowStep(Err(e), 0, 0)
    case Ok(endPos) =>
      if "ALT" !in row then RowStep(Err(KeyError("ALT")), 0, 0)
      else
        var initial := InitialAnnotation(row, endPos);
        var alt := row["ALT"];
        if alt == "." then RowStep(Ok(initial), 0, 0)
        else if "CHROM" !in row then RowStep(Err(KeyError("CHROM")), 0, 0)
        else if "POS" !in row then RowStep(Err(KeyError("POS")), 0, 0)
        else if "REF" !in row then RowStep(Err(KeyError("REF")), 0, 0)
        else
          var chrom, pos, ref := row["CHROM"], row["POS"], row["REF"];
          var reply := QueryReply(chrom, pos, endPos, alt, server);
          var calls := if SkipsQuery(alt) then 0 else 1;
          var errors := if QueryFails(chrom, pos, endPos, alt, server) then 1 else 0;
          match WithVep(initial, reply)
          case Err(e) => RowStep(Err(e), calls, errors)
          case Ok(out) => RowStep(Ok(WithClinVar(out, ClinVarKey(chrom, pos, ref, alt), clinvar)), calls, errors)
  }

  /** The row written for an annotated row keeps every input column that is not an annotation
      column, and holds the seven annotation columns and nothing else. */
  lemma AnnotatedRowColumns(row: Row, clinvar: map<string, ClinVarRecord>, server: string -> Response)
    requires AnnotateRow(row, clinvar, server).result.Ok?
    ensures var out := AnnotateRow(row, clinvar, server).result.value;
      && (forall k :: k in row && k !in AnnotationColumns ==> k in out && out[k] == row[k])
      && (forall k :: k in out <==> k in row || k in AnnotationColumns)
  {
    AnnotatedRowParts(row, clinvar, server);
    var endPos := EndPosition(row).value;
    var initial := InitialAnnotation(row, endPos);
    if row["ALT"] != "." {
      var reply := QueryReply(row["CHROM"], row["POS"], endPos, row["ALT"], server);
      EnrichedKeepsInitial(initial, reply, ClinVarKey(row["CHROM"], row["POS"], row["REF"], row["ALT"]), clinvar);
    }
  }

  /** An annotated row is flagged a reference call exactly when ALT is `.`, carries the row's end
      position, and a reference call's VEP and ClinVar columns are empty. */
  lemma AnnotatedRowFlags(row: Row, clinvar: map<string, ClinVarRecord>, server: string -> Response)
    requires AnnotateRow(row, clinvar, server).result.Ok?
    ensures "ALT" in row && EndPosition(row).Ok?
    ensures var out := AnnotateRow(row, clinvar, server).result.value;
      && "Is_Reference" in out && "Variant_End_Position" in out
      && (out["Is_Reference"] == "Yes" <==> row["ALT"] == ".")
      && out["Variant_End_Position"] == EndPosition(row).value
      && (row["ALT"] == "." ==> forall i :: 0 <= i < 5 ==> AnnotationColumns[i] in out && out[AnnotationColumns[i]] == "")
  {
    AnnotatedRowParts(row, clinvar, server);
    var endPos := EndPosition(row).value;
    var initial := InitialAnnotation(row, endPos);
    if row["ALT"] != "." {
      var reply := QueryReply(row["CHROM"], row["POS"], endPos, row["ALT"], server);
      EnrichedKeepsInitial(initial, reply, ClinVarKey(row["CHROM"], row["POS"], row["REF"], row["ALT"]), clinvar);
    }
  }

  /** How an annotated row is made: the initial annotation, enriched from the reply and the ClinVar
      table unless the row is a reference call. */
  lemma AnnotatedRowParts(row: Row, clinvar: map<string, ClinVarRecord>, server: string -> Response)
    requires AnnotateRow(row, clinvar, server).result.Ok?
    ensures "ALT" in row && EndPosition(row).Ok?
    ensures var out := AnnotateRow(row, clinvar, server).result.value;
      var initial := InitialAnnotation(row, EndPosition(row).value);
      && (row["ALT"] == "." ==> out == initial)
      && (row["ALT"] != "." ==>
        && "CHROM" in row && "POS" in row && "REF" in row
        && var reply := QueryReply(row["CHROM"], row["POS"], EndPosition(row).value, row["ALT"], server);
        && WithVep(initial, reply).Ok?
        && out == WithClinVar(WithVep(initial, reply).value, ClinVarKey(row["CHROM"], row["POS"], row["REF"], row["ALT"]), clinvar))
  {
  }

  /** Enrichment keeps the keys of the initial annotation and its end position and reference flag. */
  lemma EnrichedKeepsInitial(initial: Row, reply: Option<seq<VepHit>>, key: string, clinvar: map<string, ClinVarRecord>)
    requires "VEP_Consequence" in initial && "VEP_Impact" in initial && "VEP_Gene" in initial
    requires "ClinVar_Significance" in initial && "ClinVar_ID" in initial
    requires "Variant_End_Position" in initial && "Is_Reference" in initial
    requires WithVep(initial, reply).Ok?
    ensures var out := WithClinVar(WithVep(initial, reply).value, key, clinvar);
      && out.Keys == initial.Keys
      && out["Variant_End_Position"] == initial["Variant_End_Position"]
      && out["Is_Reference"] == initial["Is_Reference"]
      && forall k :: k in initial && k !in VepColumns && k != "ClinVar_Significance" && k != "ClinVar_ID" ==> out[k] == initial[k]
  {
    var vep := WithVep(initial, reply).value;
    assert vep.Keys == initial.Keys;
    assert "Variant_End_Position" !in VepColumns && "Is_Reference" !in VepColumns;
  }

  /** The ClinVar columns of an annotated variant come from the record stored under its
      `CHROM:POS:REF>ALT` key, and are empty when there is none. */
  lemma AnnotatedRowClinVar(row: Row, clinvar: map<string, ClinVarRecord>, server: string -> Response)
    requires AnnotateRow(row, clinvar, server).result.Ok?
    requires "ALT" in row && row["ALT"] != "."
    ensures "CHROM" in row && "POS" in row && "REF" in row
    ensures var out := AnnotateRow(row, clinvar, server).result.value;
      var key := ClinVarKey(row["CHROM"], row["POS"], row["REF"], row["ALT"]);
      && out["ClinVar_ID"] == (if key in clinvar then clinvar[key].id else "")
      && out["ClinVar_Significance"] == ExtractClinvarSignificance(if key in clinvar then clinvar[key].info else "")
      && (key !in clinvar ==> out["ClinVar_ID"] == "" && out["ClinVar_Significance"] == "")
  {
    assert Find("", ClnsigKey).None?;
  }

  /** A row whose INFO field has a non-empty first `END=` value ends there. */
  lemma EndPositionFromInfo(row: Row, entries: seq<string>, k: nat, value: string)
    requires "INFO" in row && row["INFO"] == Join(entries, ';')
    requires forall i :: 0 <= i < |entries| ==> ';' !in entries[i]
    requires k < |entries| && entries[k] == "END=" + value && '=' !in value && value != ""
    requires forall i :: 0 <= i < k ==> !IsEndEntry(entries[i])
    ensures EndPosition(row) == Ok(value)
  {
    EndPositionOf(entries, k, value);
  }

  /** A row whose INFO field is missing or holds no `END=` entry ends at its start, the POS column. */
  lemma EndPositionFromPos(row: Row)
    requires "POS" in row
    requires forall i :: 0 <= i < |Split(Get(row, "INFO", ""), ';')| ==> !IsEndEntry(Split(Get(row, "INFO", ""), ';')[i])
    ensures EndPosition(row) == Ok(row["POS"])
  {
  }

  /** What the loop of `annotate_variants` has done: the rows written, the error that stopped it,
      and the requests made and failed. */
  datatype Run = Run(written: seq<Row>, failure: Option<AnnotateError>, calls: nat, errors: nat)

  /** The loop of `annotate_variants` over `rows` with `pass` as the body of the loop, stopping at
      the first row that raises. */
  function RunRows(rows: seq<Row>, pass: Row -> RowStep): (r: Run)
    ensures |r.written| <= |rows|
    ensures r.failure.None? ==> |r.written| == |rows|
  {
    if rows == [] then Run([], None, 0, 0)
    else
      var prev := RunRows(rows[..|rows| - 1], pass);
      if prev.failure.Some? then prev
      else
        var step := pass(rows[|rows| - 1]);
        match step.result
        case Ok(out) => Run(prev.written + [out], None, prev.calls + step.calls, prev.errors + step.errors)
        case Err(e) => Run(prev.written, Some(e), prev.calls + step.calls, prev.errors + step.errors)
  }

  /** Once a row raised, the rows after it change nothing. */
  lemma {:induction false} RunRowsStops(rows: seq<Row>, n: nat, pass: Row -> RowStep)
    requires n <= |rows| && RunRows(rows[..n], pass).failure.Some?
    ensures RunRows(rows, pass) == RunRows(rows[..n], pass)
    decreases |rows| - n
  {
    if n < |rows| {
      assert rows[..n + 1][..n] == rows[..n];
      RunRowsStops(rows, n + 1, pass);
    } else {
      assert rows[..n] == rows;
    }
  }

  /** With at most one request per pass, of which at most one fails, there is at most one request
      per row, and every failed request was a request. */
  lemma {:induction false} RunRowsCounts(rows: seq<Row>, pass: Row -> RowStep)
    requires forall i :: 0 <= i < |rows| ==> pass(rows[i]).calls <= 1 && pass(rows[i]).errors <= pass(rows[i]).calls
    ensures var run := RunRows(rows, pass);
      run.calls <= |rows| && run.errors <= run.calls
  {
    if rows != [] {
      var init := rows[..|rows| - 1];
      assert forall i :: 0 <= i < |init| ==> init[i] == rows[i];
      RunRowsCounts(init, pass);
    }
  }

  /** Without an error, the row at `i` is written as its pass makes it. */
  lemma {:induction false} RunRowsWritesRow(rows: seq<Row>, i: nat, pass: Row -> RowStep)
    requires RunRows(rows, pass).failure.None? && i < |rows|
    ensures i < |RunRows(rows, pass).written|
    ensures pass(rows[i]).result == Ok(RunRows(rows, pass).written[i])
  {
    var init := rows[..|rows| - 1];
    if i < |init| {
      RunRowsWritesRow(init, i, pass);
      assert rows[i] == init[i];
    }
  }

  /** When no pass makes a request, the loop makes none. */
  lemma {:induction false} RunRowsWithoutRequests(rows: seq<Row>, pass: Row -> RowStep)
    requires forall i :: 0 <= i < |rows| ==> pass(rows[i]).calls == 0
    ensures RunRows(rows, pass).calls == 0
  {
    if rows != [] {
      var init := rows[..|rows| - 1];
      assert forall i :: 0 <= i < |init| ==> init[i] == rows[i];
      RunRowsWithoutRequests(init, pass);
    }
  }

  /** One pass of the loop of `annotate_variants`, as a function of the row. */
  function Pass(clinvar: map<string, ClinVarRecord>, server: string -> Response): Row -> RowStep {
    row => AnnotateRow(row, clinvar, server)
  }

  /** The loop of `annotate_variants` over `rows`, stopping at the first row that raises. */
  function AnnotateAll(rows: seq<Row>, clinvar: map<string, ClinVarRecord>, server: string -> Response): (r: Run)
    ensures |r.written| <= |rows|
    ensures r.failure.None? ==> |r.written| == |rows|
  {
    RunRows(rows, Pass(clinvar, server))
  }

  /** Once a row raised, the rows after it change nothing. */
  lemma AnnotateAllStops(rows: seq<Row>, n: nat, clinvar: map<string, ClinVarRecord>, server: string -> Response)
    requires n <= |rows| && AnnotateAll(rows[..n], clinvar, server).failure.Some?
    ensures AnnotateAll(rows, clinvar, server) == AnnotateAll(rows[..n], clinvar, server)
  {
    RunRowsStops(rows, n, Pass(clinvar, server));
  }

  /** There is at most one request per row, and every failed request was a request. */
  lemma AnnotateAllCounts(rows: seq<Row>, clinvar: map<string, ClinVarRecord>, server: string -> Response)
    ensures var run := AnnotateAll(rows, clinvar, server);
      run.calls <= |rows| && run.errors <= run.calls
  {
    var pass := Pass(clinvar, server);
    forall i | 0 <= i < |rows| ensures pass(rows[i]).calls <= 1 && pass(rows[i]).errors <= pass(rows[i]).calls {
      assert pass(rows[i]) == AnnotateRow(rows[i], clinvar, server);
    }
    RunRowsCounts(rows, pass);
  }

  /** Without an error, every row is written, in order, as `AnnotateRow` makes it. */
  lemma AnnotateAllWritesEveryRow(rows: seq<Row>, clinvar: map<string, ClinVarRecord>, server: string -> Response)
    requires AnnotateAll(rows, clinvar, server).failure.None?
    ensures var run := AnnotateAll(rows, clinvar, server);
      && |run.written| == |rows|
      && forall i :: 0 <= i < |rows| ==> AnnotateRow(rows[i], clinvar, server).result == Ok(run.written[i])
  {
    var pass := Pass(clinvar, server);
    forall i | 0 <= i < |rows| ensures AnnotateRow(rows[i], clinvar, server).result == Ok(RunRows(rows, pass).written[i]) {
      RunRowsWritesRow(rows, i, pass);
      assert pass(rows[i]) == AnnotateRow(rows[i], clinvar, server);
    }
  }

  /** A table of reference calls only makes no request. */
  lemma ReferenceCallsMakeNoRequest(rows: seq<Row>, clinvar: map<string, ClinVarRecord>, server: string -> Response)
    requires forall i :: 0 <= i < |rows| ==> "ALT" in rows[i] && rows[i]["ALT"] == "."
    ensures AnnotateAll(rows, clinvar, server).calls == 0
  {
    var pass := Pass(clinvar, server);
    forall i | 0 <= i < |rows| ensures pass(rows[i]).calls == 0 {
      assert pass(rows[i]) == AnnotateRow(rows[i], clinvar, server);
    }
    RunRowsWithoutRequests(rows, pass);
  }

  /** The annotator's state: the ClinVar table and the request counters. */
  class VepAnnotator {
    var clinvarData: map<string, ClinVarRecord>
    var apiCallCount: nat
    var errorCount: nat

    /** `VEPAnnotator(clinvar_path)`; `clinvarFile` holds the file's lines, or None when reading it
        raises (the table is then empty). */
    constructor(clinvarPath: Option<string>, clinvarFile: Option<seq<string>>)
      ensures clinvarData == (if clinvarPath.None? || clinvarPath.value == "" || clinvarFile.None? then map[]
        else ClinVarTable(clinvarFile.value))
      ensures apiCallCount == 0 && errorCount == 0
    {
      if clinvarPath.Some? && clinvarPath.value != "" && clinvarFile.Some? {
        var data := LoadClinVarData(clinvarFile.value);
        clinvarData := data;
      } else {
        clinvarData := map[];
      }
      apiCallCount := 0;
      errorCount := 0;
    }

    /** `_query_ensembl_vep(chrom, start, end, ref, alt)`, asking `server` for the URL built. */
    method QueryEnsemblVep(chrom: string, start: string, end: string, ref: string, alt: string, server: string -> Response)
      returns (r: Option<seq<VepHit>>)
      modifies this
      ensures r == QueryReply(chrom, start, end, alt, server)
      ensures clinvarData == old(clinvarData)
      ensures apiCallCount == old(apiCallCount) + (if SkipsQuery(alt) then 0 else 1)
      ensures errorCount == old(errorCount) + (if QueryFails(chrom, start, end, alt, server) then 1 else 0)
    {
      if alt == "." || alt == "" {
        return None;
      }
      apiCallCount := apiCallCount + 1;
      var url := VepBaseUrl + Region(chrom, start, end) + "/" + alt;
      match server(url) {
        case Response(status, hits) =>
          if status == 200 {
            r := Some(hits);
          } else {
            errorCount := errorCount + 1;
            r := Some([]);
          }
        case RequestFailed =>
          errorCount := errorCount + 1;
          r := Some([]);
      }
    }

    /** One pass of the loop of `annotate_variants`. */
    method AnnotateOne(row: Row, server: string -> Response) returns (result: Result<Row, AnnotateError>)
      modifies this
      ensures var step := AnnotateRow(row, old(clinvarData), server);
        && result == step.result
        && apiCallCount == old(apiCallCount) + step.calls && errorCount == old(errorCount) + step.errors
      ensures clinvarData == old(clinvarData)
    {
      var end := EndPosition(row);
      if end.Err? {
        return Err(end.error);
      }
      var endPos := end.value;
      if "ALT" !in row {
        return Err(KeyError("ALT"));
      }
      var out := InitialAnnotation(row, endPos);
      if row["ALT"] != "." {
        if "CHROM" !in row {
          return Err(KeyError("CHROM"));
        } else if "POS" !in row {
          return Err(KeyError("POS"));
        } else if "REF" !in row {
          return Err(KeyError("REF"));
        }
        var reply := QueryEnsemblVep(row["CHROM"], row["POS"], endPos, row["REF"], row["ALT"], server);
        match WithVep(out, reply) {
          case Err(e) => return Err(e);
          case Ok(withVep) =>
            out := WithClinVar(withVep, ClinVarKey(row["CHROM"], row["POS"], row["REF"], row["ALT"]), clinvarData);
        }
      }
      return Ok(out);
    }

    /** `annotate_variants(input_csv, output_csv)` on the input's header (None for an empty file)
        and rows: the output header, the rows written before any error, and the error raised. */
    method AnnotateVariants(fieldnames: Option<seq<string>>, rows: seq<Row>, server: string -> Response)
      returns (header: Option<seq<string>>, written: seq<Row>, failure: Option<AnnotateError>)
      modifies this
      ensures clinvarData == old(clinvarData)
      ensures fieldnames.None? ==> (
        && header.None? && written == [] && failure == Some(TypeError)
        && apiCallCount == old(apiCallCount) && errorCount == old(errorCount))
      ensures fieldnames.Some? ==> (
        var run := AnnotateAll(rows, old(clinvarData), server);
        && header == Some(fieldnames.value + AnnotationColumns)
        && written == run.written && failure == run.failure
        && apiCallCount == old(apiCallCount) + run.calls && errorCount == old(errorCount) + run.errors)
    {
      if fieldnames.None? {
        return None, [], Some(TypeError);
      }
      header := Some(fieldnames.value + AnnotationColumns);
      written := [];
      failure := None;
      var i := 0;
      while i < |rows|
        invariant 0 <= i <= |rows|
        invariant clinvarData == old(clinvarData)
        invariant var run := AnnotateAll(rows[..i], clinvarData, server);
          && written == run.written && run.failure.None?
          && apiCallCount == old(apiCallCount) + run.calls && errorCount == old(errorCount) + run.errors
      {
        assert rows[..i + 1][..i] == rows[..i];
        var result := AnnotateOne(rows[i], server);
        match result {
          case Err(e) =>
            AnnotateAllStops(rows, i + 1, clinvarData, server);
            return header, written, Some(e);
          case Ok(out) =>
            written := written + [out];
        }
        i := i + 1;
      }
      assert rows[..i] == rows;
    }
  }
}
