/**
 * The compliance-analysis route: reads the `file` form field, turns the document into text by its
 * MIME type (DOCX through a text extractor, PDF and plain text by decoding the bytes as UTF-8),
 * refuses empty text, and hands the text to the analyser.
 */
module AnalyzeRoute {
  import opened Outcomes
  import opened Js

  /** A `File` as the route sees it. */
  datatype DocumentFile = DocumentFile(mimeType: string, content: seq<Byte>)

  /** What `formData.get("file")` returns: nothing, a string field, or a file. */
  datatype FileField = Absent | TextField(value: string) | FileValue(file: DocumentFile)

  /** The JSON body and status of the response; `J` is whatever the analyser returns. */
  datatype AnalyzeResponse<J> =
    | Analysis(result: J)
    | Failure(status: nat, error: string, details: Option<string>)

  const DocxMime := "application/vnd.openxmlformats-officedocument.wordprocessingml.document"
  const NoFileProvided := "No file provided."
  const UnsupportedType := "Unsupported file type."
  const AnalysisFailed := "Failed to analyze document"
  const NoText := "Could not extract text from the document."
  /** The message JavaScript's TypeError carries when a string field is used as a file. */
  const NotAFile := "file.arrayBuffer is not a function"
  /** The one message the analyser fails with. */
  const AnalyserFailed := "The AI agent failed to analyze the document."

  /** The outcome of turning the file into text. */
  datatype Extraction = Unsupported | Extracted(text: string) | ExtractionFailed(message: string)

  /**
   * The dispatch on `file.type`. `extractDocx` is the DOCX text extractor, which may throw;
   * `decodeUtf8` is `Buffer.toString('utf-8')`.
   */
  function Extract(file: DocumentFile, extractDocx: seq<Byte> -> Result<string>, decodeUtf8: seq<Byte> -> string): (x: Extraction)
    ensures x.Unsupported? <==> file.mimeType != DocxMime && file.mimeType != "application/pdf" && file.mimeType != "text/plain"
    ensures file.mimeType == DocxMime ==>
      x == match extractDocx(file.content) case Ok(t) => Extracted(t) case Err(m) => ExtractionFailed(m)
    ensures file.mimeType == "application/pdf" || file.mimeType == "text/plain" ==> x == Extracted(decodeUtf8(file.content))
  {
    if file.mimeType == DocxMime then
      match extractDocx(file.content)
      case Ok(t) => Extracted(t)
      case Err(m) => ExtractionFailed(m)
    else if file.mimeType == "application/pdf" || file.mimeType == "text/plain" then
      Extracted(decodeUtf8(file.content))
    else
      Unsupported
  }

  /** `POST /api/analyze-compliance`; `analyse` returns the parsed JSON report, or nothing when it fails. */
  function Post<J>(field: FileField, extractDocx: seq<Byte> -> Result<string>, decodeUtf8: seq<Byte> -> string,
                   analyse: string -> Option<J>): (r: AnalyzeResponse<J>)
    ensures r.Failure? ==> r.status == 400 || r.status == 500
    ensures r.Failure? && r.status == 400 <==> r.Failure? && r.details.None?
  {
    match field
    case Absent => Failure(400, NoFileProvided, None)
    case TextField(s) =>
      if s == "" then Failure(400, NoFileProvided, None) else Failure(500, AnalysisFailed, Some(NotAFile))
    case FileValue(file) =>
      match Extract(file, extractDocx, decodeUtf8)
      case Unsupported => Failure(400, UnsupportedType, None)
      case ExtractionFailed(m) => Failure(500, AnalysisFailed, Some(m))
      case Extracted(text) =>
        if text == "" then Failure(500, AnalysisFailed, Some(NoText))
        else match analyse(text)
          case Some(report) => Analysis(report)
          case None => Failure(500, AnalysisFailed, Some(AnalyserFailed))
  }

  /** Without a file (no field, or an empty string) the answer is 400 whatever the oracles do. */
  lemma MissingFileRejected<J>(field: FileField, extractDocx: seq<Byte> -> Result<string>, decodeUtf8: seq<Byte> -> string,
                               analyse: string -> Option<J>)
    requires field.Absent? || field == TextField("")
    ensures Post(field, extractDocx, decodeUtf8, analyse) == Failure(400, NoFileProvided, None)
  {
  }

  /** A type other than DOCX, PDF and plain text is refused with 400, and no oracle is consulted. */
  lemma UnsupportedNeverAnalysed<J>(file: DocumentFile, extractDocx: seq<Byte> -> Result<string>, decodeUtf8: seq<Byte> -> string,
                                    analyse: string -> Option<J>)
    requires file.mimeType != DocxMime && file.mimeType != "application/pdf" && file.mimeType != "text/plain"
    ensures Post(FileValue(file), extractDocx, decodeUtf8, analyse) == Failure(400, UnsupportedType, None)
  {
  }

  /** A DOCX file goes through the extractor only: the UTF-8 decoder has no say in the result. */
  lemma DocxUsesExtractor<J>(file: DocumentFile, extractDocx: seq<Byte> -> Result<string>,
                             decode1: seq<Byte> -> string, decode2: seq<Byte> -> string, analyse: string -> Option<J>)
    requires file.mimeType == DocxMime
    ensures Post(FileValue(file), extractDocx, decode1, analyse) == Post(FileValue(file), extractDocx, decode2, analyse)
    ensures extractDocx(file.content).Err? ==>
      Post(FileValue(file), extractDocx, decode1, analyse) == Failure(500, AnalysisFailed, Some(extractDocx(file.content).message))
  {
  }

  /** PDF and plain-text bytes are decoded as they are: the DOCX extractor has no say and no PDF parsing happens. */
  lemma PdfAndTextDecoded<J>(file: DocumentFile, extract1: seq<Byte> -> Result<string>, extract2: seq<Byte> -> Result<string>,
                             decodeUtf8: seq<Byte> -> string, analyse: string -> Option<J>)
    requires file.mimeType == "application/pdf" || file.mimeType == "text/plain"
    ensures Post(FileValue(file), extract1, decodeUtf8, analyse) == Post(FileValue(file), extract2, decodeUtf8, analyse)
    ensures Extract(file, extract1, decodeUtf8) == Extracted(decodeUtf8(file.content))
  {
  }

  /** Empty text is a 500 with its own details, and the analyser's answer does not matter. */
  lemma EmptyTextNotAnalysed<J>(file: DocumentFile, extractDocx: seq<Byte> -> Result<string>, decodeUtf8: seq<Byte> -> string,
                                analyse1: string -> Option<J>, analyse2: string -> Option<J>)
    requires Extract(file, extractDocx, decodeUtf8) == Extracted("")
    ensures Post(FileValue(file), extractDocx, decodeUtf8, analyse1) == Failure(500, AnalysisFailed, Some(NoText))
    ensures Post(FileValue(file), extractDocx, decodeUtf8, analyse1) == Post(FileValue(file), extractDocx, decodeUtf8, analyse2)
  {
  }

  /**
   * The route answers with a report exactly when the file gave non-empty text and the analyser
   * produced that report from that text; the report is passed on unchanged.
   */
  lemma AnalysisIffAnalysed<J>(field: FileField, extractDocx: seq<Byte> -> Result<string>, decodeUtf8: seq<Byte> -> string,
                               analyse: string -> Option<J>, report: J)
    ensures Post(field, extractDocx, decodeUtf8, analyse) == Analysis(report) <==>
      field.FileValue? && exists text :: text != "" && Extract(field.file, extractDocx, decodeUtf8) == Extracted(text) && analyse(text) == Some(report)
  {
    if Post(field, extractDocx, decodeUtf8, analyse) == Analysis(report) {
      var text := Extract(field.file, extractDocx, decodeUtf8).text;
      assert text != "" && analyse(text) == Some(report);
    }
  }

  /** When the analyser fails the route answers 500 with the analyser's message in the details. */
  lemma AnalyserFailureReported<J>(file: DocumentFile, extractDocx: seq<Byte> -> Result<string>, decodeUtf8: seq<Byte> -> string,
                                   analyse: string -> Option<J>, text: string)
    requires text != "" && Extract(file, extractDocx, decodeUtf8) == Extracted(text) && analyse(text).None?
    ensures Post(FileValue(file), extractDocx, decodeUtf8, analyse) == Failure(500, AnalysisFailed, Some(AnalyserFailed))
  {
  }
}
