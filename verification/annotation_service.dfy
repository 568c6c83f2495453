/** The annotation workflow: choose a parser/annotator pair by annotation type, then run
    parse, setup and annotate, with cleanup on every way out. */
module AnnotationService {
  import opened Wrappers
  import opened BaseParser

  const DefaultAnnotationType := "dbnsfp"

  datatype Parser = VEPParser | DbNSFPParser
  datatype Annotator = VEPAnnotator | DbNSFPAnnotator

  /** Whether the annotator class defines `setup`, `annotate` and `cleanup`. DbNSFPAnnotator does;
      VEPAnnotator defines none of them (its entry point is `annotate_variants`). */
  predicate HasLifecycle(a: Annotator) {
    a == DbNSFPAnnotator
  }

  datatype WorkflowError =
    | UnknownAnnotationType(annotationType: string)  // ValueError from the dispatch
    | MissingAttribute(name: string)                 // AttributeError: the annotator lacks the method
    | Raised(message: string)                        // an exception of a collaborator, passed on as it is

  /** The pair a valid annotation type selects. */
  predicate Matched(annotationType: string, parser: Parser, annotator: Annotator) {
    || (annotationType == "vep" && parser == VEPParser && annotator == VEPAnnotator)
    || (annotationType == "dbnsfp" && parser == DbNSFPParser && annotator == DbNSFPAnnotator)
  }

  /** `_get_parser` */
  function GetParser(annotationType: string): (r: Result<Parser, WorkflowError>)
    ensures r.Ok? <==> annotationType == "vep" || annotationType == "dbnsfp"
    ensures r.Ok? ==> (r.value == VEPParser <==> annotationType == "vep")
    ensures r.Err? ==> r.error == UnknownAnnotationType(annotationType)
  {
    if annotationType == "vep" then Ok(VEPParser)
    else if annotationType == "dbnsfp" then Ok(DbNSFPParser)
    else Err(UnknownAnnotationType(annotationType))
  }

  /** `_get_annotator` */
  function GetAnnotator(annotationType: string): (r: Result<Annotator, WorkflowError>)
    ensures r.Ok? <==> annotationType == "vep" || annotationType == "dbnsfp"
    ensures r.Ok? ==> (r.value == VEPAnnotator <==> annotationType == "vep")
    ensures r.Err? ==> r.error == UnknownAnnotationType(annotationType)
  {
    if annotationType == "vep" then Ok(VEPAnnotator)
    else if annotationType == "dbnsfp" then Ok(DbNSFPAnnotator)
    else Err(UnknownAnnotationType(annotationType))
  }

  /** An `AnnotationWorkflow` once built; its fields never change afterwards. */
  datatype Workflow = Workflow(annotationType: string, parser: Parser, annotator: Annotator)

  /** The constructors `__init__` ran, in order. */
  datatype Built = ParserBuilt(parser: Parser) | AnnotatorBuilt(annotator: Annotator)

  datatype Construction = Construction(built: seq<Built>, result: Result<Workflow, WorkflowError>)

  /** `AnnotationWorkflow(annotation_type, **kwargs)`. `annotatorInit` is what the annotator's own
      constructor did with the keyword arguments. An unknown type fails before any annotator is built. */
  function NewWorkflow(annotatorInit: Outcome<string>, annotationType: string := DefaultAnnotationType)
    : (c: Construction)
    ensures c.result.Ok? <==> (annotationType == "vep" || annotationType == "dbnsfp") && annotatorInit.Pass?
    ensures annotationType != "vep" && annotationType != "dbnsfp" ==>
      c.built == [] && c.result == Err(UnknownAnnotationType(annotationType))
    ensures annotatorInit.Fail? && (annotationType == "vep" || annotationType == "dbnsfp") ==>
      c.result == Err(Raised(annotatorInit.error)) && |c.built| == 2
    ensures c.result.Ok? ==>
      var w := c.result.value;
      w.annotationType == annotationType && Matched(annotationType, w.parser, w.annotator)
      && c.built == [ParserBuilt(w.parser), AnnotatorBuilt(w.annotator)]
  {
    match GetParser(annotationType)
    case Err(e) => Construction([], Err(e))
    case Ok(parser) =>
      match GetAnnotator(annotationType)
      case Err(e) => Construction([ParserBuilt(parser)], Err(e))
      case Ok(annotator) =>
        var built := [ParserBuilt(parser), AnnotatorBuilt(annotator)];
        match annotatorInit
        case Fail(msg) => Construction(built, Err(Raised(msg)))
        case Pass => Construction(built, Ok(Workflow(annotationType, parser, annotator)))
  }

  /** Without an annotation type the workflow uses dbNSFP. */
  lemma DefaultIsDbnsfp()
    ensures NewWorkflow(Pass).result == Ok(Workflow("dbnsfp", DbNSFPParser, DbNSFPAnnotator))
  {
  }

  /** The collaborator calls `process` made, in order. */
  datatype Event =
    | ParseCalled(inputVcf: string, outputDir: string)
    | SetupCalled
    | AnnotateCalled(parsedFile: string, annotatedFile: string)
    | CleanupCalled

  /** What `process` returns on success. */
  datatype Annotated = Annotated(outputFolder: string, parsedFile: string, annotatedFile: string, timestamp: string)

  /** `os.path.join(output_folder, f'{annotation_type}_annotated_variants.csv')` */
  function AnnotatedFile(annotationType: string, outputFolder: string): string {
    PathJoin(outputFolder, annotationType + "_annotated_variants.csv")
  }

  /** `process(input_vcf, output_dir)`. The collaborators are abstract: `parse`, `setup`, `annotate` and
      `cleanup` are what each call returns or raises. Python's `finally` runs cleanup on every path,
      and an exception raised there replaces whatever was being returned or raised. */
  method Process(w: Workflow, inputVcf: string, outputDir: string,
                 parse: Result<ParseResult, string>, setup: Outcome<string>,
                 annotate: Outcome<string>, cleanup: Outcome<string>)
    returns (trace: seq<Event>, r: Result<Annotated, WorkflowError>)
    ensures |trace| >= 1 && trace[0] == ParseCalled(inputVcf, outputDir)
    // VEPAnnotator: `setup` is missing, and so is the `cleanup` the finally clause then looks up
    ensures !HasLifecycle(w.annotator) ==>
      trace == [ParseCalled(inputVcf, outputDir)] && r == Err(MissingAttribute("cleanup"))
    // cleanup runs exactly once, last
    ensures HasLifecycle(w.annotator) ==>
      trace[|trace| - 1] == CleanupCalled && CleanupCalled !in trace[..|trace| - 1]
    // parse, then setup, then annotate, each only when the one before it returned
    ensures HasLifecycle(w.annotator) ==>
      trace == [ParseCalled(inputVcf, outputDir)]
        + (if parse.Ok? then [SetupCalled] else [])
        + (if parse.Ok? && setup.Pass?
           then [AnnotateCalled(parse.value.parsedFile, AnnotatedFile(w.annotationType, parse.value.outputFolder))]
           else [])
        + [CleanupCalled]
    ensures r.Ok? <==> HasLifecycle(w.annotator) && parse.Ok? && setup.Pass? && annotate.Pass? && cleanup.Pass?
    ensures r.Ok? ==> r.value == Annotated(parse.value.outputFolder, parse.value.parsedFile,
                                           AnnotatedFile(w.annotationType, parse.value.outputFolder),
                                           parse.value.timestamp)
    // exceptions pass through unchanged, the cleanup's own taking precedence
    ensures HasLifecycle(w.annotator) && cleanup.Fail? ==> r == Err(Raised(cleanup.error))
    ensures HasLifecycle(w.annotator) && cleanup.Pass? ==>
      (parse.Err? ==> r == Err(Raised(parse.error)))
      && (parse.Ok? && setup.Fail? ==> r == Err(Raised(setup.error)))
      && (parse.Ok? && setup.Pass? && annotate.Fail? ==> r == Err(Raised(annotate.error)))
  {
    // try:
    var pending: Result<Annotated, WorkflowError>;
    trace := [ParseCalled(inputVcf, outputDir)];
    match parse {
      case Err(e) =>
        pending := Err(Raised(e));
      case Ok(parsed) =>
        if !HasLifecycle(w.annotator) {
          pending := Err(MissingAttribute("setup"));
        } else {
          trace := trace + [SetupCalled];
          match setup {
            case Fail(e) =>
              pending := Err(Raised(e));
            case Pass =>
              var annotatedFile := AnnotatedFile(w.annotationType, parsed.outputFolder);
              trace := trace + [AnnotateCalled(parsed.parsedFile, annotatedFile)];
              match annotate {
                case Fail(e) =>
                  pending := Err(Raised(e));
                case Pass =>
                  pending := Ok(Annotated(parsed.outputFolder, parsed.parsedFile, annotatedFile, parsed.timestamp));
              }
          }
        }
    }
    // finally:
    if !HasLifecycle(w.annotator) {
      r := Err(MissingAttribute("cleanup"));
    } else {
      trace := trace + [CleanupCalled];
      match cleanup {
        case Fail(e) =>
          r := Err(Raised(e));
        case Pass =>
          r := pending;
      }
    }
  }
}
