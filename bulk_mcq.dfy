/**
 * The bulk MCQ import page: pasted or PDF-extracted text is parsed on the server into a
 * preview, and the text is imported once the preview is clean.
 */
module BulkMcq {
  import opened Wrappers
  import opened Strings

  /** A problem the parser reports. */
  datatype ParseError = ParseError(message: string)

  /** A parsed MCQ as the preview lists it. */
  datatype ParsedMcq = ParsedMcq(question: string, options: seq<string>)

  /** The parse response; every field may be missing. */
  datatype Preview = Preview(
    mcqs: Option<seq<ParsedMcq>>,
    errors: Option<seq<ParseError>>,
    partialBlockIndices: Option<seq<int>>)

  /** The bulk import response. */
  datatype BulkData = BulkData(created: int, errors: Option<seq<ParseError>>, partialBlockIndices: Option<seq<int>>)

  /** What the import result panel shows. */
  datatype ImportResult =
    | Imported(created: int, errors: Option<seq<ParseError>>, partialBlockIndices: seq<int>)
    | ImportFailed(message: string)

  /** A chosen file, by its MIME type. */
  datatype PickedFile = PickedFile(mimeType: string)

  datatype Request = ParseText(topicId: string, text: string) | BulkImport(topicId: string, text: string, kind: string)

  const PdfType: string := "application/pdf"

  /** The preview a failed parse shows: no MCQs and one error carrying the server's message or `Parse failed`. */
  function FailurePreview(message: Option<string>): (p: Preview)
    ensures p.mcqs == Some([]) && p.errors.Some? && |p.errors.value| == 1
    ensures p.errors.value[0].message == OrDefault(message, "Parse failed")
  {
    Preview(Some([]), Some([ParseError(OrDefault(message, "Parse failed"))]), None)
  }

  /** `canSave`: text to import, at least one parsed MCQ and no parse errors. */
  predicate CanSave(text: string, preview: Option<Preview>) {
    !IsBlank(text) && preview.Some? && |preview.value.mcqs.GetOr([])| > 0
    && |preview.value.errors.GetOr([])| == 0
  }

  /** A failed parse never lets the import through. */
  lemma FailureBlocksSave(text: string, message: Option<string>)
    ensures !CanSave(text, Some(FailurePreview(message)))
  {
  }

  /** Saving needs all three conditions; failing any one of them blocks it. */
  lemma CanSaveIff(text: string, preview: Option<Preview>)
    ensures CanSave(text, preview) <==>
              (exists k :: 0 <= k < |text| && !IsSpace(text[k]))
              && preview.Some? && preview.value.mcqs.Some? && |preview.value.mcqs.value| > 0
              && (preview.value.errors.None? || |preview.value.errors.value| == 0)
  {
    BlankIffAllSpace(text);
  }

  /** Preview item `i` (counted from 0) came from a block the parser found without options; blocks are counted from 1. */
  predicate IsPartial(preview: Preview, i: int) {
    i + 1 in preview.partialBlockIndices.GetOr([])
  }

  /** The page's state. */
  class BulkImportPage {
    const topicId: string
    var text: string
    var kind: string
    var preview: Option<Preview>
    var parseLoading: bool
    var importLoading: bool
    var importResult: Option<ImportResult>
    var pdfLoading: bool
    var pdfError: Option<string>
    var requests: seq<Request>

    constructor (topicId: string)
      ensures this.topicId == topicId && text == "" && kind == "text" && preview.None?
      ensures !parseLoading && !importLoading && importResult.None? && !pdfLoading && pdfError.None?
      ensures requests == []
    {
      this.topicId := topicId;
      text := "";
      kind := "text";
      preview := None;
      parseLoading := false;
      importLoading := false;
      importResult := None;
      pdfLoading := false;
      pdfError := None;
      requests := [];
    }

    /** The Import button's `disabled`. */
    predicate ImportDisabled()
      reads this
    {
      importLoading || !CanSave(text, preview)
    }

    /** The Parse button's `disabled`. */
    predicate ParseDisabled()
      reads this
    {
      parseLoading || IsBlank(text)
    }

    /** The import control is enabled exactly when saving is allowed and no import is running. */
    lemma ImportEnabledIff()
      ensures !ImportDisabled() <==> CanSave(text, preview) && !importLoading
    {
    }

    /** Typing into the text area. */
    method SetText(t: string)
      modifies this
      ensures text == t
      ensures kind == old(kind) && preview == old(preview) && importResult == old(importResult)
      ensures pdfError == old(pdfError) && requests == old(requests)
      ensures parseLoading == old(parseLoading) && importLoading == old(importLoading) && pdfLoading == old(pdfLoading)
    {
      text := t;
    }

    /**
     * `handleParse`, with `outcome` the parse response: nothing happens for blank text;
     * otherwise the trimmed text is sent, the import result is cleared, and the preview
     * becomes the response or the failure preview.
     */
    method Parse(outcome: Outcome<Preview>)
      modifies this
      ensures IsBlank(old(text)) ==>
                preview == old(preview) && importResult == old(importResult) && requests == old(requests)
                && parseLoading == old(parseLoading)
      ensures !IsBlank(old(text)) ==>
                requests == old(requests) + [ParseText(topicId, Trim(old(text)))]
                && importResult.None? && !parseLoading
                && preview == Some(if outcome.Ok? then outcome.data else FailurePreview(outcome.message))
      ensures text == old(text) && kind == old(kind) && pdfError == old(pdfError)
      ensures importLoading == old(importLoading) && pdfLoading == old(pdfLoading)
    {
      if IsBlank(text) {
        return;
      }
      parseLoading := true;
      importResult := None;
      requests := requests + [ParseText(topicId, Trim(text))];
      if outcome.Ok? {
        preview := Some(outcome.data);
      } else {
        preview := Some(FailurePreview(outcome.message));
      }
      parseLoading := false;
    }

    /**
     * `handleImport`, with `outcome` the import response: nothing happens for blank text;
     * otherwise the trimmed text and type are sent and the result recorded. Only an import
     * that created something clears the text, the preview and the PDF error.
     */
    method Import(outcome: Outcome<BulkData>)
      modifies this
      ensures IsBlank(old(text)) ==>
                text == old(text) && preview == old(preview) && pdfError == old(pdfError)
                && importResult == old(importResult) && requests == old(requests) && importLoading == old(importLoading)
      ensures !IsBlank(old(text)) ==>
                requests == old(requests) + [BulkImport(topicId, Trim(old(text)), old(kind))] && !importLoading
      ensures !IsBlank(old(text)) && outcome.Ok? ==>
                importResult == Some(Imported(outcome.data.created, outcome.data.errors,
                                              outcome.data.partialBlockIndices.GetOr([])))
      ensures !IsBlank(old(text)) && outcome.Failed? ==>
                importResult == Some(ImportFailed(OrDefault(outcome.message, "Import failed")))
      ensures !IsBlank(old(text)) && outcome.Ok? && outcome.data.created > 0 ==>
                text == "" && preview.None? && pdfError.None? && !CanSave(text, preview)
      ensures !IsBlank(old(text)) && !(outcome.Ok? && outcome.data.created > 0) ==>
                text == old(text) && preview == old(preview) && pdfError == old(pdfError)
      ensures kind == old(kind) && parseLoading == old(parseLoading) && pdfLoading == old(pdfLoading)
    {
      if IsBlank(text) {
        return;
      }
      importLoading := true;
      importResult := None;
      requests := requests + [BulkImport(topicId, Trim(text), kind)];
      if outcome.Ok? {
        var d := outcome.data;
        importResult := Some(Imported(d.created, d.errors, d.partialBlockIndices.GetOr([])));
        if d.created > 0 {
          text := "";
          preview := None;
          pdfError := None;
        }
      } else {
        importResult := Some(ImportFailed(OrDefault(outcome.message, "Import failed")));
      }
      importLoading := false;
    }

    /**
     * `handlePdfFile`, with `extracted` the text extraction's result (a failure carries the
     * thrown error's own `message`), `parsed` the parse response for the extracted text, and
     * `parseErrorText` the `message` of the client-side error a rejected parse request throws
     * (the HTTP library's own text, such as "Request failed with status code 400", not the
     * server's body). No file does nothing; a non-PDF file is rejected before extraction;
     * blank extracted text is reported without parsing; otherwise the trimmed text replaces
     * the text and is parsed. A failure of either step becomes the PDF error.
     */
    method PdfFile(file: Option<PickedFile>, extracted: Outcome<Option<string>>, parsed: Outcome<Preview>,
                   parseErrorText: Option<string>)
      modifies this
      ensures file.None? ==>
                text == old(text) && preview == old(preview) && pdfError == old(pdfError)
                && importResult == old(importResult) && requests == old(requests)
      ensures file.Some? && file.value.mimeType != PdfType ==>
                pdfError == Some("Please select a PDF file.")
                && text == old(text) && preview == old(preview) && importResult == old(importResult)
                && requests == old(requests)
      ensures file.Some? && file.value.mimeType == PdfType ==> importResult.None? && !pdfLoading
      ensures file.Some? && file.value.mimeType == PdfType && extracted.Failed? ==>
                pdfError == Some(OrDefault(extracted.message, "Failed to extract text from PDF."))
                && preview.None? && text == old(text) && requests == old(requests)
      ensures file.Some? && file.value.mimeType == PdfType && extracted.Ok? && IsBlank(extracted.data.GetOr("")) ==>
                pdfError == Some("No text could be extracted from this PDF.")
                && preview.None? && text == old(text) && requests == old(requests)
      ensures file.Some? && file.value.mimeType == PdfType && extracted.Ok? && !IsBlank(extracted.data.GetOr("")) ==>
                var t := Trim(extracted.data.GetOr(""));
                text == t && requests == old(requests) + [ParseText(topicId, t)]
                && (parsed.Ok? ==> preview == Some(parsed.data) && pdfError.None?)
                && (parsed.Failed? ==>
                      preview.None? && pdfError == Some(OrDefault(parseErrorText, "Failed to extract text from PDF.")))
      ensures kind == old(kind) && parseLoading == old(parseLoading) && importLoading == old(importLoading)
    {
      if file.None? {
        return;
      }
      if file.value.mimeType != PdfType {
        pdfError := Some("Please select a PDF file.");
        return;
      }
      pdfError := None;
      pdfLoading := true;
      importResult := None;
      preview := None;
      if extracted.Failed? {
        pdfError := Some(OrDefault(extracted.message, "Failed to extract text from PDF."));
        preview := None;
        pdfLoading := false;
        return;
      }
      var trimmed := Trim(extracted.data.GetOr(""));
      if trimmed == [] {
        pdfError := Some("No text could be extracted from this PDF.");
        pdfLoading := false;
        return;
      }
      text := trimmed;
      requests := requests + [ParseText(topicId, trimmed)];
      if parsed.Ok? {
        preview := Some(parsed.data);
      } else {
        pdfError := Some(OrDefault(parseErrorText, "Failed to extract text from PDF."));
        preview := None;
      }
      pdfLoading := false;
    }
  }
}
