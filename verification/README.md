# Genetic disorder annotation pipeline: a Dafny model of its core

This project models the part of the genetic-disorder annotation service that keeps state or
transforms variant files:

- the **job registry** (`ProcessManager`): annotation jobs keyed by `"{session_id}_{timestamp}"`,
  their status changes, cancellation and eviction;
- the **session registry** (`SessionManager`): browser sessions, their activity times and job lists;
- the **annotation workflow** (`AnnotationWorkflow`): dispatch on the annotation type, then parse,
  set up, annotate and clean up;
- the **parsers**:
  - the VEP pre-parser, which copies the `##` metadata and writes one CSV row per ALT allele;
  - the dbNSFP pre-parser, which keeps the `#CHROM` header and the data lines;
  - the CSV to VCF converter;
  - the scikit-allel based VCF parser;
- the **VEP annotator**: the ClinVar lookup table, the INFO-field extractors, the Ensembl VEP query
  and the row enrichment loop.

Each source file becomes one module:

| module | file | source |
|---|---|---|
| `ProcessManagement` | process_manager.dfy | src/process/process_manager.py |
| `SessionManagement` | session_manager.dfy | src/session/session_manager.py |
| `AnnotationService` | annotation_service.dfy | src/annotator/annotation_service.py |
| `VepParsing` | vep_parser.dfy | src/parser/vep_parser.py |
| `DbnsfpParsing` | dbnsfp_parser.dfy | src/parser/dbnsfp_parser.py |
| `CsvConversion` | csv_converter.dfy | src/parser/csv_converter.py |
| `VcfParsing` | vcf_parser.dfy | src/parser/vcf_parser.py |
| `VepAnnotation` | vep_annotator.dfy | src/annotator/vep_annotator.py |

Four helper modules support them:
- `Wrappers`: `Option`, `Result` and `Outcome`. These stand in for Python's `None` results and
  raised exceptions.
- `Text`: the `str` methods the code uses: `startswith`, `split`, `join`, `strip`, `lower`, `find`
  and `replace(x, '')`.
- `Seqs`: filtering, and the first index satisfying a predicate. These stand in for comprehensions
  and `next(...)`.
- `BaseParser`: the dictionary every parser returns, and POSIX `os.path.join` / `basename`.

The model follows the code's form:
- Objects whose fields the code updates in place are classes: `ProcessInfo`, `ProcessManager`,
  `Session`, `SessionManager`, `VepAnnotator` and `VcfParser`.
- The code's loops are methods with loop invariants. Each is proved equal to a specification
  function, and the properties are proved about that function.
- The comprehensions and dispatch code are functions and lemmas.

Files are sequences of lines, as `readlines` or iteration over the file yields them. Times are
whole seconds. The Ensembl REST service is a parameter: a function from the requested URL to the
response. A process kill is an abstract outcome, and so are the parser and annotator calls in the
workflow.

## Model

| member | source | states |
|---|---|---|
| ProcessManagement.StatusNamed | src/process/process_manager.py:108-112 | every status string has exactly one status value, whose name is that string |
| ProcessManagement.StatusNamedRoundTrip | src/process/process_manager.py:108-112 | a status value is the one its name stands for, so the four known names are never `Other` |
| ProcessManagement.Retained | src/process/process_manager.py:114-126 | the registry after eviction keeps exactly the jobs that are not both older than `max_age_hours` and completed or cancelled, unchanged; running and error jobs always survive |
| ProcessManagement.RetainedIdempotent | src/process/process_manager.py:114-126 | evicting a second time at the same moment removes nothing more |
| ProcessManagement.ProcessInfo.constructor | src/process/process_manager.py:18-30 | a new record holds exactly the given pid, start time, status, session, timestamp, type, input file and output folder |
| ProcessManagement.ProcessManager.constructor | src/process/process_manager.py:35-38 | the registry starts empty |
| ProcessManagement.ProcessManager.StartProcess | src/process/process_manager.py:40-59 | returns `session_id + "_" + timestamp`; that key now holds a fresh running record, replacing any earlier one, and every other entry is the same object as before |
| ProcessManagement.ProcessManager.CancelProcess | src/process/process_manager.py:61-99 | succeeds exactly when the key is known, its job is running and the kill finished; only then is the status set to cancelled; an unknown key, a job that is not running, or a kill that raised changes nothing |
| ProcessManagement.ProcessManager.GetProcessStatus | src/process/process_manager.py:101-106 | the stored status for a known key, None for an unknown one, reading without changing anything |
| ProcessManagement.ProcessManager.UpdateProcessStatus | src/process/process_manager.py:108-112 | a known job gets the new status whatever it had, a finished one included; an unknown key changes nothing |
| ProcessManagement.ProcessManager.EvictableKeys | src/process/process_manager.py:119-123 | the first loop collects exactly the keys of completed or cancelled jobs older than `max_age_hours` |
| ProcessManagement.ProcessManager.CleanupOldProcesses | src/process/process_manager.py:114-126 | the registry becomes `Retained` of the old one, and the surviving entries are the same objects |
| ProcessManagement.ProcessManager.GetSessionProcesses | src/process/process_manager.py:128-132 | exactly the entries whose session id matches, as the registry's own objects |
| ProcessManagement.StartThenQuery | src/process/process_manager.py:40-59 | right after registration the job reports running |
| ProcessManagement.CancelTwice | src/process/process_manager.py:64-99 | after a successful cancellation a second one fails and the job stays cancelled; after a kill that raised, the job is still running and a later kill succeeds |
| ProcessManagement.ReviveAfterCancel | src/process/process_manager.py:108-112 | a cancelled job is made running again by a status update |
| SessionManagement.RemoveFirst | src/session/session_manager.py:47-51 | `list.remove`: one element shorter, the same multiset less one occurrence, and the first occurrence is the one cut out |
| SessionManagement.RemoveFirstAppended | src/session/session_manager.py:41-51 | appending a key the list does not hold and then removing it gives back the list |
| SessionManagement.Active | src/session/session_manager.py:53-65 | the sessions left are exactly those not idle for more than `max_age_hours`, unchanged |
| SessionManagement.Session.constructor | src/session/session_manager.py:22-33 | a new session is created and last active now, with no jobs |
| SessionManagement.SessionManager.constructor | src/session/session_manager.py:17-20 | the registry starts empty |
| SessionManagement.SessionManager.CreateSession | src/session/session_manager.py:22-33 | stores a fresh session under the new id and returns that id; other sessions are untouched |
| SessionManagement.SessionManager.UpdateSessionActivity | src/session/session_manager.py:35-39 | a known session's `last_active` becomes now; an unknown id changes nothing |
| SessionManagement.SessionManager.AddProcessToSession | src/session/session_manager.py:41-45 | a known session's job list gets the key appended, duplicates included; an unknown id changes nothing |
| SessionManagement.SessionManager.RemoveProcessFromSession | src/session/session_manager.py:47-51 | fails with the ValueError exactly when the session is known and lacks the key; otherwise removes its first occurrence, and an unknown id changes nothing |
| SessionManagement.SessionManager.IdleSessionIds | src/session/session_manager.py:58-62 | the first loop collects exactly the ids of sessions idle for more than `max_age_hours` |
| SessionManagement.SessionManager.CleanupInactiveSessions | src/session/session_manager.py:53-65 | the registry becomes `Active` of the old one, and the surviving entries are the same objects |
| SessionManagement.SessionManager.GetSessionInfo | src/session/session_manager.py:67-70 | the stored session itself for a known id, None otherwise |
| SessionManagement.AttachThenDetach | src/session/session_manager.py:41-51 | attaching a new job key and detaching it again succeeds and leaves every session as it was |
| AnnotationService.GetParser | src/annotator/annotation_service.py:15-22 | a parser exactly for `vep` and `dbnsfp`, the VEP one exactly for `vep`; any other type is the ValueError naming it |
| AnnotationService.GetAnnotator | src/annotator/annotation_service.py:24-31 | an annotator exactly for `vep` and `dbnsfp`, the VEP one exactly for `vep`; any other type is the ValueError naming it |
| AnnotationService.NewWorkflow | src/annotator/annotation_service.py:10-13 | a workflow is built exactly for a known type whose annotator constructor returned; an unknown type fails before any annotator is built; the pair built matches the type |
| AnnotationService.DefaultIsDbnsfp | src/annotator/annotation_service.py:10 | without a type the workflow is the dbNSFP pair |
| AnnotationService.Process | src/annotator/annotation_service.py:33-56 | calls parse, setup and annotate in order, each only after the one before returned, and cleanup exactly once and last; the annotated file is `{type}_annotated_variants.csv` in the output folder; the result is the returned dictionary exactly when every call returned; an exception passes through unchanged unless cleanup raises, whose exception then wins; a VEP workflow fails on the missing `cleanup` |
| VepParsing.LineRows | src/parser/vep_parser.py:45-54 | a data line gives rows exactly when it has more than six fields and the INFO column; then one row per comma-separated ALT allele |
| VepParsing.LineRowsShape | src/parser/vep_parser.py:47-54 | each row copies CHROM, POS, ID, REF, QUAL, FILTER and INFO from their columns and holds the allele at its own index |
| VepParsing.EmitStopsAtFailure | src/parser/vep_parser.py:45-57 | once a line is short, the lines after it write nothing |
| VepParsing.EmitSucceeds | src/parser/vep_parser.py:45-57 | every line is written exactly when no line is short |
| VepParsing.EmitAllWritten | src/parser/vep_parser.py:45-57 | lines that all have enough fields are all written |
| VepParsing.EmitWrittenAll | src/parser/vep_parser.py:45-57 | when every line was written, every line had enough fields |
| VepParsing.EmitAppends | src/parser/vep_parser.py:45-54 | a line with enough fields appends its rows after those of the lines before it |
| VepParsing.EmitFailsAtFirstShortLine | src/parser/vep_parser.py:45-57 | a failing run stops at the first short line, having written the rows of every line before it |
| VepParsing.EmitRowCount | src/parser/vep_parser.py:45-54 | without a short line there is one row per ALT allele of every line |
| VepParsing.EmitRowsShape | src/parser/vep_parser.py:45-54 | every row written has eight fields, and its ALT field holds no comma |
| VepParsing.WriteAlleleRows | src/parser/vep_parser.py:52-54 | the inner loop appends one row per comma-separated ALT allele, in order, after the rows already written |
| VepParsing.EmitRows | src/parser/vep_parser.py:45-54 | the nested loop writes exactly the rows of `Emit` and stops where `Emit` does |
| VepParsing.Emit | src/parser/vep_parser.py:45-57 | the rows the data lines produce, stopping at the first line with too few fields; its properties are the `Emit` lemmas above |
| VepParsing.OutputFilesLocation | src/parser/vep_parser.py:19-24 | the CSV and the metadata file lie directly inside `output_dir/timestamp`, whose name is the timestamp |
| VepParsing.Parse | src/parser/vep_parser.py:10-64 | the folder is `output_dir/timestamp`; the metadata file holds the `##` lines in order; without a `#CHROM` line no CSV is opened and the error names that; the INFO column is found in the header or the error names that; the CSV holds the fixed header then the emitted rows; success returns the folder, the CSV path, the metadata path and the timestamp |
| DbnsfpParsing.ProcessedLines | src/parser/dbnsfp_parser.py:29-34 | fails exactly when no line starts with `#CHROM`; otherwise the first such line, then every line not starting with `#`, in order |
| DbnsfpParsing.OneCommentLine | src/parser/dbnsfp_parser.py:29-34 | the output starts with its only `#` line, and no `##` metadata line survives |
| DbnsfpParsing.HeaderThenDataUnchanged | src/parser/dbnsfp_parser.py:29-34 | a `#CHROM` line followed by data lines is written back unchanged |
| DbnsfpParsing.Idempotent | src/parser/dbnsfp_parser.py:29-34 | pre-parsing its own output writes the same lines again |
| DbnsfpParsing.DataOrder | src/parser/dbnsfp_parser.py:30 | the data lines of a concatenation are those of each part, in order |
| DbnsfpParsing.Parse | src/parser/dbnsfp_parser.py:9-43 | the file is written exactly when a header exists, and the error otherwise is the missing-header RuntimeError; success returns the folder `output_dir/timestamp`, `dbnsfp_input.vcf` inside it and the timestamp |
| DbnsfpParsing.ParsedFileLocation | src/parser/dbnsfp_parser.py:18-22 | the folder's own name is the timestamp and the processed file lies directly inside it |
| CsvConversion.Candidates | src/parser/csv_converter.py:113-133 | the lower-case names accepted for each role; `CandidatesDisjoint` proves no name serves two roles |
| CsvConversion.IdentifyRequiredColumns | src/parser/csv_converter.py:97-145 | every column it names is a column of the table |
| CsvConversion.IdentifyFindsFirstCandidates | src/parser/csv_converter.py:112-145 | a mapping exists exactly when every role has a candidate column, and each role gets its first candidate in column order |
| CsvConversion.IdentifiedColumnIsFirst | src/parser/csv_converter.py:112-135 | the column chosen for a role is a candidate for it, and no earlier column is |
| CsvConversion.RoleCandidatesHead | src/parser/csv_converter.py:112-135 | a role has candidates exactly when some column is one, and the first of them is the first such column |
| CsvConversion.RequiredColumnsDistinct | src/parser/csv_converter.py:112-139 | the four columns chosen are pairwise distinct, because no name is a candidate for two roles |
| CsvConversion.ConvertToVcf | src/parser/csv_converter.py:39-95 | without the four columns no file is opened and the RuntimeError carries the ValueError's message; otherwise the file is the fixed header then one line per row, and the result is the folder, `dbnsfp_input.vcf` in it and the folder's name |
| CsvConversion.WriteVcf | src/parser/csv_converter.py:72-83 | the loop writes the fixed header, then one line per row, in row order |
| CsvConversion.VcfLine | src/parser/csv_converter.py:82 | the line written for one row; `VcfLineJoins` and `VcfLineFields` give its columns |
| CsvConversion.Converted | src/parser/csv_converter.py:53-57 | the returned folder, `dbnsfp_input.vcf` inside it and the folder's name; `ConvertedLocation` states where the file lies |
| CsvConversion.VcfLines | src/parser/csv_converter.py:75-83 | one VCF line per table row |
| CsvConversion.RectangularHasCells | src/parser/csv_converter.py:75-79 | every row has a cell in each of the four chosen columns |
| CsvConversion.ConvertedLocation | src/parser/csv_converter.py:53-57 | for a timestamp folder the returned timestamp is that timestamp and the VCF lies directly inside the folder |
| CsvConversion.VcfLineJoins | src/parser/csv_converter.py:82 | a written line is CHROM, POS, `.`, REF, ALT, `.`, `.`, `.` joined by tabs, then a newline |
| CsvConversion.VcfLineFields | src/parser/csv_converter.py:82 | a written line ends in a newline and splits on tabs into CHROM, POS, `.`, REF, ALT, `.`, `.`, `.` |
| CsvConversion.ConvertedFileSurvivesDbnsfp | src/parser/csv_converter.py:72-83 | the dbNSFP pre-parser writes a converted file back unchanged when no chromosome starts with `#` |
| CsvConversion.HeaderIsHeaderLine | src/parser/csv_converter.py:72 | the fixed header is the `#CHROM` line the dbNSFP pre-parser looks for |
| CsvConversion.RowLineIsData | src/parser/csv_converter.py:82 | a line whose chromosome does not start with `#` is a data line |
| VcfParsing.MetadataCount | src/parser/vcf_parser.py:31-39 | the lines before it all start with `##` and the line at it does not |
| VcfParsing.LeadingMetadata | src/parser/vcf_parser.py:31-39 | the maximal leading run of `##` lines, each stripped, ending at the first other line |
| VcfParsing.LeadingMetadataUnique | src/parser/vcf_parser.py:31-39 | any stripped leading run of `##` lines that ends at a non-`##` line is that metadata |
| VcfParsing.MetadataStartsWithHashes | tests/test_vcf_parser.py:14 | every metadata line returned starts with `##` |
| VcfParsing.MetadataStopsAtFirstOtherLine | src/parser/vcf_parser.py:34-38 | `##` lines followed by any other line give exactly as many metadata lines, whatever follows |
| VcfParsing.VcfParser.ExtractMetadata | src/parser/vcf_parser.py:31-39 | the append-and-break loop returns the maximal leading run of stripped `##` lines |
| VcfParsing.Unwrap | src/parser/vcf_parser.py:49 | a one-element list becomes its element and any other item stays; `FlattenSingletons` and `FlattenFieldIdempotent` are its properties |
| VcfParsing.FlattenField | src/parser/vcf_parser.py:48-50 | a present field keeps its length, one-element lists become their element and other items stay; an absent field gives one default per POS entry; without POS the KeyError; without a callset the TypeError |
| VcfParsing.FlattenFieldIdempotent | src/parser/vcf_parser.py:48-50 | flattening a flattened column changes nothing |
| VcfParsing.FlattenSingletons | src/parser/vcf_parser.py:49 | a column of one-element lists flattens to the column of their elements |
| VcfParsing.JoinAlleles | src/parser/vcf_parser.py:58-59 | the result is never a list, and a value that is not a list is kept |
| VcfParsing.AltColumn | src/parser/vcf_parser.py:58-59 | exists exactly when the callset has ALT; each list of alleles becomes one `|`-joined value, other values stay |
| VcfParsing.AllelesRoundTrip | src/parser/vcf_parser.py:58 | splitting a joined ALT value at `|` gives back the alleles when none contains `|` |
| VcfParsing.ExtractVariants | src/parser/vcf_parser.py:41-63 | no callset is the TypeError, no POS the KeyError for POS, and no ALT the KeyError for ALT; otherwise columns of different lengths are the ValueError; a table's columns are the flattened CHROM, POS, ID, REF, QUAL and FILTER fields with their defaults and the joined ALT column, each as long as POS |
| VcfParsing.ExtractVariantsSucceeds | src/parser/vcf_parser.py:48-62 | the table is built exactly when POS and ALT are present and every present field is as long as POS; absent ID, QUAL and FILTER become `.`, `.` and `PASS` |
| VcfParsing.VcfParser.constructor | src/parser/vcf_parser.py:6-10 | keeps the two paths, with no metadata or variants yet |
| VcfParsing.VcfParser.Parse | src/parser/vcf_parser.py:12-29 | a missing input raises FileNotFoundError before any folder, field or file is touched; otherwise the folder is made when missing, the metadata is stored, and the variants are stored, written to `parsed_variants.csv` and returned with the metadata, or their error is raised |
| VepAnnotation.ExtractEndPosition | src/annotator/vep_annotator.py:89-94 | None exactly when no `;`-entry starts with `END=`; the value found holds no `;` or `=` |
| VepAnnotation.EndPositionOf | src/annotator/vep_annotator.py:89-94 | an INFO field whose first `END=` entry is `END=v` gives back `v` |
| VepAnnotation.EndEntrySplit | src/annotator/vep_annotator.py:93 | `END=v` splits at `=` into `END` and `v` |
| VepAnnotation.ExtractClinvarSignificance | src/annotator/vep_annotator.py:97-103 | empty when `CLNSIG=` is absent; otherwise the text right after the first `CLNSIG=` up to the next `;` or the end, holding no `;` |
| VepAnnotation.ClnsigFoundAfter | src/annotator/vep_annotator.py:100-101 | the first `CLNSIG=` is the one after a prefix that holds none and ends an entry |
| VepAnnotation.ClinvarSignificanceAt | src/annotator/vep_annotator.py:97-103 | when the first `CLNSIG=` is followed by a `;`-free value and then `;` or the end, that value is the significance |
| VepAnnotation.ClinvarSignificanceOf | src/annotator/vep_annotator.py:97-103 | an INFO field with an entry `CLNSIG=v` and no earlier `CLNSIG=` gives back `v` |
| VepAnnotation.ClinVarKey | src/annotator/vep_annotator.py:74 | the table key `CHROM:POS:REF>ALT`; its round trip is `ClinVarKeySplits` |
| VepAnnotation.ClinVarKeySplits | src/annotator/vep_annotator.py:74 | a key splits back at `:` into the chromosome, the position and `REF>ALT` when no part holds a `:` |
| VepAnnotation.ClinVarEntry | src/annotator/vep_annotator.py:68-77 | a line adds an entry exactly when it does not start with `#` and has more than seven tab fields; the entry is the key of fields 0, 1, 3 and 4 with id field 2 and info field 7 |
| VepAnnotation.Entries | src/annotator/vep_annotator.py:66-79 | one entry per line, in the order of the lines |
| VepAnnotation.TableKeys | src/annotator/vep_annotator.py:66-79 | a key is in the table exactly when some entry records it |
| VepAnnotation.TableLastWins | src/annotator/vep_annotator.py:74-77 | a key holds the record of the last entry recording it |
| VepAnnotation.ClinVarTableLookup | src/annotator/vep_annotator.py:66-79 | a key is in the ClinVar table exactly when some line yields a record under it, and then holds the last such record |
| VepAnnotation.LoadClinVarData | src/annotator/vep_annotator.py:56-86 | the loop builds exactly the ClinVar table of the file's lines |
| VepAnnotation.RegionDropsChr | src/annotator/vep_annotator.py:123 | a `chr` prefix is dropped from the region's chromosome, and a chromosome without `chr` is kept |
| VepAnnotation.Region | src/annotator/vep_annotator.py:123 | `CHROM:start-end` with every `chr` removed from the chromosome; its property is `RegionDropsChr` |
| VepAnnotation.QueryUrl | src/annotator/vep_annotator.py:124 | the base URL, the region, `/` and the ALT allele |
| VepAnnotation.QueryReply | src/annotator/vep_annotator.py:106-142 | no reply exactly when ALT is `.` or empty; a failed request gives an empty reply |
| VepAnnotation.EndPosition | src/annotator/vep_annotator.py:173 | a non-empty `END=` value found in INFO is the end position; otherwise the POS cell is; without either, the KeyError for POS |
| VepAnnotation.WithVep | src/annotator/vep_annotator.py:199-206 | a reply without hits leaves the row as it is; otherwise the consequence is the first hit's `most_severe_consequence` or `''`, and when that hit has transcripts the impact and gene are the first transcript's `impact` and `gene_symbol` or `''`; the IndexError happens exactly when the first hit's transcript list is empty; no other column changes |
| VepAnnotation.WithClinVar | src/annotator/vep_annotator.py:197-198 | adds the two ClinVar columns and changes no other column |
| VepAnnotation.InitialAnnotation | src/annotator/vep_annotator.py:176-184 | the row gains the seven annotation columns and keeps its other cells; the end position and reference flag are set and the rest are empty |
| VepAnnotation.AnnotateRow | src/annotator/vep_annotator.py:171-217 | at most one request per row, and one only for a row whose ALT is present and not `.`; failed requests never outnumber requests |
| VepAnnotation.AnnotatedRowColumns | src/annotator/vep_annotator.py:175-217 | an annotated row keeps every input column that is not an annotation column, and its columns are exactly the input's and the seven annotation columns |
| VepAnnotation.AnnotatedRowFlags | src/annotator/vep_annotator.py:172-183 | an annotated row is flagged a reference exactly when ALT is `.`, carries the end position, and a reference call's VEP and ClinVar cells are empty |
| VepAnnotation.EnrichedKeepsInitial | src/annotator/vep_annotator.py:199-215 | the VEP and ClinVar updates of a variant keep its columns, its end position and its reference flag, and change no column but the five they fill |
| VepAnnotation.AnnotatedRowClinVar | src/annotator/vep_annotator.py:188-217 | a variant's ClinVar id and significance come from the record under `CHROM:POS:REF>ALT`, and are empty without one |
| VepAnnotation.EndPositionFromPos | src/annotator/vep_annotator.py:173 | a row whose INFO is missing or has no `END=` entry ends at its POS |
| VepAnnotation.EndPositionFromInfo | src/annotator/vep_annotator.py:173 | a non-empty first `END=` value in INFO is the end position |
| VepAnnotation.RunRows | src/annotator/vep_annotator.py:171-219 | the loop with any pass as its body writes at most one row per input row, and one per row when nothing raised |
| VepAnnotation.RunRowsStops | src/annotator/vep_annotator.py:171-243 | once a pass raised, the rows after it change nothing |
| VepAnnotation.RunRowsWritesRow | src/annotator/vep_annotator.py:171-219 | without an error the row at each index is written as its pass makes it |
| VepAnnotation.RunRowsCounts | src/annotator/vep_annotator.py:114-142 | passes of at most one request each make at most one request per row, and no more failures than requests |
| VepAnnotation.RunRowsWithoutRequests | src/annotator/vep_annotator.py:113-116 | passes that make no request make a loop that makes none |
| VepAnnotation.AnnotateAll | src/annotator/vep_annotator.py:171-219 | the loop with `AnnotateRow` as its pass: at most one row written per row, every row when nothing raised; its properties are the `AnnotateAll` lemmas below |
| VepAnnotation.AnnotateAllStops | src/annotator/vep_annotator.py:171-243 | once a row raised, the rows after it change nothing |
| VepAnnotation.AnnotateAllCounts | src/annotator/vep_annotator.py:114-142 | a run makes at most one request per row, and every failed request was a request |
| VepAnnotation.AnnotateAllWritesEveryRow | src/annotator/vep_annotator.py:171-219 | without an error every row is written, in order, as `AnnotateRow` makes it |
| VepAnnotation.ReferenceCallsMakeNoRequest | src/annotator/vep_annotator.py:113-116 | a table of reference calls makes no request |
| VepAnnotation.VepAnnotator.constructor | src/annotator/vep_annotator.py:11-25 | the ClinVar table is loaded from the file when a path is given and the file can be read, and is empty otherwise; both counters start at zero |
| VepAnnotation.VepAnnotator.QueryEnsemblVep | src/annotator/vep_annotator.py:106-142 | returns `QueryReply`; the request counter grows exactly when a request is made, the error counter exactly when it fails |
| VepAnnotation.VepAnnotator.AnnotateOne | src/annotator/vep_annotator.py:171-217 | returns the row or error of `AnnotateRow` and adds its requests and failures to the counters |
| VepAnnotation.VepAnnotator.AnnotateVariants | src/annotator/vep_annotator.py:145-243 | without a header row the TypeError, with no request; otherwise the header is the input's plus the seven columns, and the rows written, the error and the counters are those of `AnnotateAll` |
| BaseParser.PathJoin | src/parser/dbnsfp_parser.py:22 | an absolute second part replaces the first; otherwise one `/` joins them; the result ends with the second part |
| BaseParser.Basename | src/parser/csv_converter.py:53 | the text after the last `/`, holding no `/` |
| BaseParser.TimestampedFile | src/parser/dbnsfp_parser.py:18-22 | in `output_dir/timestamp` the folder's name is the timestamp and a file name joined on is the path's basename |

## Left out

- I/O is out of the model: reading and writing files, `os.makedirs`, `os.path.exists`,
  `pd.read_csv`, `to_csv`, `allel.read_vcf` and `csv` quoting. Each file is its sequence of lines,
  or the table or callset read from it.
- Logging, `print`, `tqdm`, `time.sleep`, and the elapsed-time and rate arithmetic in floating
  point are left out. Apart from the case below, they have no effect on results.
- `VepAnnotation.VepAnnotator.AnnotateVariants`: the final rate `processed/elapsed_time` is not
  modelled. With no data rows and a clock that has not moved since the start, it is `0/0.0`, and
  the ZeroDivisionError is re-raised. The model returns success with only the header written.
- `ProcessManagement.ProcessManager.CancelProcess`: the kill is an abstract outcome. The registered
  pid is the registering process's own `os.getpid()`. So with the in-process registry,
  `parent.kill()` kills the caller itself. The `Killed` outcome, and with it the `True` result, can
  only happen when the registered pid is not the caller's own.
- Status strings: a status is a `StatusValue`. A string other than the four known names is
  `Other(name)`, and `StatusNamed` maps every string to its value. So `"running"` given as a new
  status is `Running`, never `Other("running")`.
- `threading.Lock` is left out. Each registry operation is modelled as atomic.
- `psutil` killing is an abstract kill outcome. The `os.walk`/`os.remove`/`os.rmdir` deletion in
  `cancel_process` is not modelled, because its errors are caught and logged and never change the
  result.
- `uuid.uuid4()` and `datetime.now()` are parameters of the operations that use them.
- The Ensembl REST call is a function from URL to response. A `requests` exception is
  `RequestFailed`, and `response.json()` is a list of hits. A JSON object as a 200 reply is not
  modelled. A 200 reply whose body is not valid JSON is not modelled either. Newer `requests`
  versions raise a `RequestException` subclass for it, which counts as a failed request. Older ones
  raise a plain ValueError, which escapes `annotate_variants`. `{}` and `[]` are both an empty
  reply, and Python treats both as falsy.
- The parser and annotator calls inside `AnnotationWorkflow.process` are abstract outcomes. Their
  own logic is modelled in the parser and annotator modules.
- `Text.Lower` lowers only ASCII letters. `Text.IsSpace` is Python's whitespace set for `str.strip`
  on code points. Unicode case folding is not modelled.
- `VepAnnotation.VepAnnotator.AnnotateVariants`: the `csv.DictReader` rows are maps from column to
  text. A row with fewer cells (a `None` value) or more cells (a `None` key) is not modelled.
- `CsvConversion.ConvertToVcf`: the cells are the text `str()` gives for each pandas value. Column
  names are assumed unique, as pandas makes them. Exceptions from reading the CSV are not modelled.
- `VcfParsing.ExtractVariants`: callset values are kept as their text. A list or tuple is
  `Sequence`; a NumPy array counts as one value, as the `isinstance` tests treat it.
- `VcfParsing.VcfParser.Parse` returns the metadata and the variant table. The table's CSV
  rendering by pandas is not modelled.
- The dbNSFP annotator, the web application (`app.py`, `dbNSFP.py`, `static/index.js`) and the
  configuration module are not part of this model.

## Behaviour the model keeps as the code has it

The model follows the code, including places where it does less than a job and session service
might be expected to do, or behaves in ways a caller might not expect:

- Cancelling a job writes no cancellation marker, and the registry keeps no list of child pids.
- The workflow runner persists no status record.
- `update_process_status` can move a cancelled or completed job back to running.
- `cleanup_old_processes` never evicts jobs in the `error` state, and deletes no folders.
- `remove_process_from_session` raises ValueError for a key the session does not hold.
- In `process`, an exception raised by `cleanup()` in the `finally` clause replaces the outcome,
  including the outcome of a step that succeeded.
- `VEPAnnotator` defines none of `setup`, `annotate` and `cleanup`. A VEP workflow therefore fails
  with an AttributeError. The error comes from `cleanup` in the `finally` clause, which hides the
  one from `setup`.
