/** The dashboard's two conversion panels: PDF -> CSV (with an optional AI
    summary and a CSV download) and Excel -> Markdown report. Each handler is
    split at its `await`: a `Begin` step that runs before the remote call and
    a `Finish` step that takes the call's result (`None` when it throws). */
module Dashboard {
  import opened Wrappers
  import opened Text
  import GeminiService

  // ---------------------------------------------------------------------------
  // Download file name: `name.replace(/\.[^/.]+$/, "") + '.csv'`
  // ---------------------------------------------------------------------------

  const CsvSuffix: string := ".csv"

  /** The regular expression `/\.[^/.]+$/` matches `s` from index `i`: a dot,
      then one or more characters that are neither '/' nor '.', to the end. */
  predicate ExtensionAt(s: string, i: int) {
    0 <= i && i + 1 < |s| && s[i] == '.'
    && forall k :: i < k < |s| ==> s[k] != '/' && s[k] != '.'
  }

  /** The expression can match at one place at most. */
  lemma ExtensionUnique(s: string, i: int, j: int)
    requires ExtensionAt(s, i) && ExtensionAt(s, j)
    ensures i == j
  {
  }

  /** Index of the last occurrence of `c`, if any. */
  function LastIndexOf(s: string, c: char): (r: Option<nat>)
    ensures r.Some? ==> r.value < |s| && s[r.value] == c && forall k :: r.value < k < |s| ==> s[k] != c
    ensures r.None? ==> forall k :: 0 <= k < |s| ==> s[k] != c
    decreases |s|
  {
    if s == [] then None
    else if s[|s| - 1] == c then Some(|s| - 1)
    else LastIndexOf(s[..|s| - 1], c)
  }

  /** Remove the match of `/\.[^/.]+$/`: only the last dot can start it. */
  function StripExtension(s: string): (r: string)
    ensures forall i :: ExtensionAt(s, i) ==> r == s[..i]
    ensures (forall i :: !ExtensionAt(s, i)) ==> r == s
  {
    match LastIndexOf(s, '.')
    case None => s
    case Some(d) =>
      if d + 1 < |s| && forall k :: d < k < |s| ==> s[k] != '/' then
        assert ExtensionAt(s, d);
        ExtensionUniqueAll(s, d);
        s[..d]
      else
        NoExtensionPastLastDot(s, d);
        s
  }

  lemma ExtensionUniqueAll(s: string, d: int)
    requires ExtensionAt(s, d)
    ensures forall i :: ExtensionAt(s, i) ==> i == d
  {
    forall i | ExtensionAt(s, i) ensures i == d {
      ExtensionUnique(s, i, d);
    }
  }

  /** If the last dot does not start a match, nothing does. */
  lemma NoExtensionPastLastDot(s: string, d: nat)
    requires d < |s| && s[d] == '.' && forall k :: d < k < |s| ==> s[k] != '.'
    requires !(d + 1 < |s| && forall k :: d < k < |s| ==> s[k] != '/')
    ensures forall i :: !ExtensionAt(s, i)
  {
  }

  /** The name the CSV download is saved under. */
  function DownloadName(fileName: string): (r: string)
    ensures EndsWith(r, CsvSuffix)
    ensures |r| <= |fileName| + |CsvSuffix|
    ensures forall i :: ExtensionAt(fileName, i) ==> r == fileName[..i] + CsvSuffix
    ensures (forall i :: !ExtensionAt(fileName, i)) ==> r == fileName + CsvSuffix
  {
    StripExtension(fileName) + CsvSuffix
  }

  /** Only the final extension goes: "a.b.pdf" saves as "a.b.csv". */
  lemma DownloadNameLastExtension(name: string)
    requires name == "a.b.pdf"
    ensures DownloadName(name) == "a.b.csv"
  {
    assert ExtensionAt(name, 3);
    assert name[..3] == "a.b";
  }

  /** A name without a dot gets ".csv" appended: "report" saves as "report.csv". */
  lemma DownloadNameNoDot(name: string)
    requires name == "report"
    ensures DownloadName(name) == "report.csv"
  {
    assert forall i :: !ExtensionAt(name, i);
  }

  /** A dot before a '/' starts no extension: "dir.x/file" saves as "dir.x/file.csv". */
  lemma DownloadNameDotBeforeSlash(name: string)
    requires name == "dir.x/file"
    ensures DownloadName(name) == "dir.x/file.csv"
  {
    forall i ensures !ExtensionAt(name, i) {
      if i == 3 {
        assert name[5] == '/';
      }
    }
  }

  /** A trailing dot is kept: "file." saves as "file..csv". */
  lemma DownloadNameTrailingDot(name: string)
    requires name == "file."
    ensures DownloadName(name) == "file..csv"
  {
    assert forall i :: !ExtensionAt(name, i);
  }

  // ---------------------------------------------------------------------------
  // Panel state and handlers
  // ---------------------------------------------------------------------------

  const PdfFailedMessage: string := "Failed to process PDF. The AI module might be busy. Please try again."
  const SummaryFailedMessage: string := "Failed to generate summary. The AI may be experiencing high load."
  const ExcelFailedMessage: string := "Failed to process Excel file. The AI module might be busy. Please try again."

  datatype Panel = Panel(
    isProcessingPdf: bool,
    excelData: Option<string>,
    pdfError: Option<string>,
    processedPdfFileName: Option<string>,
    reportSummary: Option<string>,
    isGeneratingSummary: bool,
    summaryError: Option<string>,
    isProcessingExcel: bool,
    reportMarkdown: Option<string>,
    excelError: Option<string>,
    processedExcelFileName: Option<string>)

  const Initial: Panel := Panel(false, None, None, None, None, false, None, false, None, None, None)

  /** `handlePdfFileChange` up to the `await`: with no file chosen nothing
      happens; otherwise the previous CSV, summary and both errors are cleared. */
  function BeginPdfUpload(p: Panel, fileName: Option<string>): (r: Panel)
    ensures fileName.None? ==> r == p
    ensures fileName.Some? ==>
      && r.isProcessingPdf
      && r.excelData.None? && r.pdfError.None? && r.reportSummary.None? && r.summaryError.None?
      && r.processedPdfFileName == fileName
      && r.isGeneratingSummary == p.isGeneratingSummary
      && r.isProcessingExcel == p.isProcessingExcel && r.reportMarkdown == p.reportMarkdown
      && r.excelError == p.excelError && r.processedExcelFileName == p.processedExcelFileName
  {
    match fileName
    case None => p
    case Some(name) =>
      p.(isProcessingPdf := true, excelData := None, pdfError := None, reportSummary := None,
         summaryError := None, processedPdfFileName := Some(name))
  }

  /** The rest of `handlePdfFileChange`: `response` is the model's text, or
      None when the call throws. The CSV is the response as the client's
      cleaner returns it, stray 'v' included. */
  function FinishPdfUpload(p: Panel, response: Option<string>): (r: Panel)
    ensures !r.isProcessingPdf
    ensures response.Some? ==> r.excelData == Some(GeminiService.CleanCsvAsWritten(response.value)) && r.pdfError == p.pdfError
    ensures response.None? ==> r.pdfError == Some(PdfFailedMessage) && r.excelData == p.excelData
    ensures r.(isProcessingPdf := p.isProcessingPdf, excelData := p.excelData, pdfError := p.pdfError) == p
  {
    match response
    case Some(text) => p.(isProcessingPdf := false, excelData := Some(GeminiService.CleanCsvAsWritten(text)))
    case None => p.(isProcessingPdf := false, pdfError := Some(PdfFailedMessage))
  }

  /** `handleDownloadCsv`: the (file name, contents) of the download, or None
      when the CSV or the file name is missing or empty. */
  function DownloadCsv(p: Panel): (r: Option<(string, string)>)
    ensures r.Some? <==> Truthy(p.excelData) && Truthy(p.processedPdfFileName)
    ensures r.Some? ==> r.value.0 == DownloadName(p.processedPdfFileName.value) && r.value.1 == p.excelData.value
  {
    if !Truthy(p.excelData) || !Truthy(p.processedPdfFileName) then None
    else Some((DownloadName(p.processedPdfFileName.value), p.excelData.value))
  }

  /** `handleGenerateSummary` up to the `await`: `request` holds the CSV and
      file name sent to the model, None when the guard returns early. */
  function BeginSummary(p: Panel): (r: (Panel, Option<(string, string)>))
    ensures r.1.Some? <==> Truthy(p.excelData) && Truthy(p.processedPdfFileName)
    ensures r.1.None? ==> r.0 == p
    ensures r.1.Some? ==>
      && r.1.value == (p.excelData.value, p.processedPdfFileName.value)
      && r.0 == p.(isGeneratingSummary := true, reportSummary := None, summaryError := None)
  {
    if !Truthy(p.excelData) || !Truthy(p.processedPdfFileName) then (p, None)
    else (p.(isGeneratingSummary := true, reportSummary := None, summaryError := None),
          Some((p.excelData.value, p.processedPdfFileName.value)))
  }

  function FinishSummary(p: Panel, response: Option<string>): (r: Panel)
    ensures !r.isGeneratingSummary
    ensures response.Some? ==> r.reportSummary == response && r.summaryError == p.summaryError
    ensures response.None? ==> r.summaryError == Some(SummaryFailedMessage) && r.reportSummary == p.reportSummary
    ensures r.(isGeneratingSummary := p.isGeneratingSummary, reportSummary := p.reportSummary,
               summaryError := p.summaryError) == p
  {
    match response
    case Some(text) => p.(isGeneratingSummary := false, reportSummary := Some(text))
    case None => p.(isGeneratingSummary := false, summaryError := Some(SummaryFailedMessage))
  }

  /** `handleExcelFileChange` up to the `await`. */
  function BeginExcelUpload(p: Panel, fileName: Option<string>): (r: Panel)
    ensures fileName.None? ==> r == p
    ensures fileName.Some? ==>
      && r.isProcessingExcel && r.reportMarkdown.None? && r.excelError.None?
      && r.processedExcelFileName == fileName
      && r.(isProcessingExcel := p.isProcessingExcel, reportMarkdown := p.reportMarkdown,
            excelError := p.excelError, processedExcelFileName := p.processedExcelFileName) == p
  {
    match fileName
    case None => p
    case Some(name) =>
      p.(isProcessingExcel := true, reportMarkdown := None, excelError := None,
         processedExcelFileName := Some(name))
  }

  function FinishExcelUpload(p: Panel, response: Option<string>): (r: Panel)
    ensures !r.isProcessingExcel
    ensures response.Some? ==> r.reportMarkdown == response && r.excelError == p.excelError
    ensures response.None? ==> r.excelError == Some(ExcelFailedMessage) && r.reportMarkdown == p.reportMarkdown
    ensures r.(isProcessingExcel := p.isProcessingExcel, reportMarkdown := p.reportMarkdown,
               excelError := p.excelError) == p
  {
    match response
    case Some(text) => p.(isProcessingExcel := false, reportMarkdown := Some(text))
    case None => p.(isProcessingExcel := false, excelError := Some(ExcelFailedMessage))
  }

  /** `handlePreviewAndDownload`'s guard: the report and its file name, or
      None when either is missing or empty. */
  function PreviewReport(p: Panel): (r: Option<(string, string)>)
    ensures r.Some? <==> Truthy(p.reportMarkdown) && Truthy(p.processedExcelFileName)
    ensures r.Some? ==> r.value == (p.reportMarkdown.value, p.processedExcelFileName.value)
  {
    if !Truthy(p.reportMarkdown) || !Truthy(p.processedExcelFileName) then None
    else Some((p.reportMarkdown.value, p.processedExcelFileName.value))
  }

  /** While a new PDF is being processed the old CSV is gone, so neither the
      download nor the summary can run; a failed upload keeps it that way. */
  lemma UploadDisablesDownload(p: Panel, name: string, response: Option<string>)
    ensures DownloadCsv(BeginPdfUpload(p, Some(name))).None?
    ensures BeginSummary(BeginPdfUpload(p, Some(name))).1.None?
    ensures response.None? ==> DownloadCsv(FinishPdfUpload(BeginPdfUpload(p, Some(name)), response)).None?
  {
  }

  /** After a successful upload whose cleaned CSV is non-empty, the download
      is that CSV saved under the rewritten name. */
  lemma UploadThenDownload(p: Panel, name: string, text: string)
    requires name != "" && GeminiService.CleanCsvAsWritten(text) != ""
    ensures DownloadCsv(FinishPdfUpload(BeginPdfUpload(p, Some(name)), Some(text)))
      == Some((DownloadName(name), GeminiService.CleanCsvAsWritten(text)))
  {
  }

  /** The stray 'v' of a fenced reply reaches the downloaded file. */
  lemma FencedReplyDownloadsStrayV(p: Panel, name: string, body: string)
    requires name != "" && body == "\na,b\n"
    ensures DownloadCsv(FinishPdfUpload(BeginPdfUpload(p, Some(name)),
                                        Some(GeminiService.CsvFence + body + GeminiService.Fence)))
      == Some((DownloadName(name), "v\na,b"))
  {
    GeminiService.CsvAsWrittenKeepsStrayV(body);
    UploadThenDownload(p, name, GeminiService.CsvFence + body + GeminiService.Fence);
  }
}
