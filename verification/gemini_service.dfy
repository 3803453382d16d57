/** The pure post-processing of the request/response client: stripping
    Markdown code fences from model text (the CSV and JSON variants), the
    request configuration of a grounded chat turn, and the scan for the first
    inline-data part of an image-editing reply. The remote calls themselves
    are not modelled; their replies are the inputs here. */
module GeminiService {
  import opened Wrappers
  import opened Text

  const Fence: string := "```"
  const CsvFence: string := "```csv"
  const JsonFence: string := "```json"

  // ---------------------------------------------------------------------------
  // Code-fence stripping of the PDF-to-Excel reply
  // ---------------------------------------------------------------------------

  /** The CSV cleaner with the length of the leading "```csv" cut as a
      parameter: the source cuts 5 characters, one short of the 6 the
      "```csv" tag occupies. Trim, cut a leading "```csv", cut one leading
      bare fence, cut one trailing fence, trim again. */
  function StripCsvFences(text: string, csvCut: nat): (r: string)
    requires csvCut <= |CsvFence|
    ensures IsTrimmed(r)
  {
    Trim(CutTrailingFence(CutLeadingFence(CutCsvTag(Trim(text), csvCut))))
  }

  /** `substring(csvCut)` when the text opens with "```csv". */
  function CutCsvTag(t: string, csvCut: nat): (r: string)
    requires csvCut <= |CsvFence|
    ensures CsvFence <= t ==> t == CsvFence[..csvCut] + r
    ensures !(CsvFence <= t) ==> r == t
  {
    if CsvFence <= t then t[csvCut..] else t
  }

  /** `substring(3)` when the text opens with a bare fence. */
  function CutLeadingFence(t: string): (r: string)
    ensures Fence <= t ==> t == Fence + r
    ensures !(Fence <= t) ==> r == t
  {
    if Fence <= t then t[|Fence|..] else t
  }

  /** `slice(0, -3)` when the text closes with a fence. */
  function CutTrailingFence(t: string): (r: string)
    ensures EndsWith(t, Fence) ==> t == r + Fence
    ensures !EndsWith(t, Fence) ==> r == t
  {
    if EndsWith(t, Fence) then t[..|t| - |Fence|] else t
  }

  /** The CSV cleaner exactly as `extractDataFromPdf` writes it (`substring(5)`). */
  function CleanCsvAsWritten(text: string): (r: string)
    ensures IsTrimmed(r)
    ensures CsvFence <= Trim(text) ==> |r| > 0 && r[0] == 'v'
  {
    StrayVSurvives(text);
    StripCsvFences(text, 5)
  }

  lemma StrayVSurvives(text: string)
    ensures var r := StripCsvFences(text, 5);
      CsvFence <= Trim(text) ==> |r| > 0 && r[0] == 'v'
  {
    if CsvFence <= Trim(text) {
      var t1 := CutCsvTag(Trim(text), 5);
      assert t1[0] == 'v';
      LeadingVSurvivesFences(t1);
    }
  }

  /** A text led by 'v' keeps that 'v' through both fence cuts and the trim. */
  lemma LeadingVSurvivesFences(t1: string)
    requires |t1| > 0 && t1[0] == 'v'
    ensures var r := Trim(CutTrailingFence(CutLeadingFence(t1)));
      |r| > 0 && r[0] == 'v'
  {
    assert CutLeadingFence(t1) == t1;
    var t3 := CutTrailingFence(t1);
    if EndsWith(t1, Fence) {
      assert t1 == t3 + Fence;
    }
    assert |t3| > 0 && t3[0] == 'v';
    assert TrimStart(t3) == t3;
  }

  /** On a reply wrapped as "```csv" + body + "```" the cleaner as written
      returns the trimmed body with a "v" glued to its front. */
  lemma CsvAsWrittenOnFenced(body: string)
    ensures CleanCsvAsWritten(CsvFence + body + Fence) == Trim("v" + body)
  {
    var text := CsvFence + body + Fence;
    assert IsTrimmed(text);
    TrimOfTrimmed(text);
    var t1 := CutCsvTag(text, 5);
    assert t1 == "v" + body + Fence;
    assert CutLeadingFence(t1) == t1;
    assert EndsWith(t1, Fence);
    assert CutTrailingFence(t1) == "v" + body;
  }

  /** The concrete instance: the reply "```csv\na,b\n```" comes back as
      "v\na,b", where the corrected cleaner gives "a,b". */
  lemma CsvAsWrittenKeepsStrayV(body: string)
    requires body == "\na,b\n"
    ensures CleanCsvAsWritten(CsvFence + body + Fence) == "v\na,b"
    ensures CleanCsv(CsvFence + body + Fence) == "a,b"
  {
    CsvAsWrittenOnFenced(body);
    TrimSampleV(body);
    CsvFenceRoundTrip(body);
    TrimSampleBody(body);
  }

  lemma TrimSampleV(body: string)
    requires body == "\na,b\n"
    ensures Trim("v" + body) == "v\na,b"
  {
    var s := "v" + body;
    assert s[..|s| - 1] == "v\na,b";
    TrimOfTrailing(s, "v\na,b");
  }

  lemma TrimSampleBody(body: string)
    requires body == "\na,b\n"
    ensures Trim(body) == "a,b"
  {
    assert body[1..|body| - 1] == "a,b";
    TrimOfPadded(body, "a,b");
  }

  /** Behind a leading fence, a longer fence-led tag is a prefix exactly when
      its tail is a prefix of what follows the fence. */
  lemma PrefixPastFence(p: string, rest: string)
    requires Fence <= p
    ensures p <= Fence + rest <==> p[|Fence|..] <= rest
  {
    assert (Fence + rest)[|Fence|..] == rest;
    if p[|Fence|..] <= rest {
      assert p == Fence + p[|Fence|..];
    }
  }

  /** The CSV cleaner with the cut the "```csv" tag needs; the rest of the
      model uses this one. */
  function CleanCsv(text: string): (r: string)
    ensures IsTrimmed(r)
  {
    StripCsvFences(text, |CsvFence|)
  }

  /** A reply wrapped as "```csv" + body + "```" cleans to the trimmed body,
      provided the body does not itself open with a backtick. */
  lemma CsvFenceRoundTrip(body: string)
    requires body == [] || body[0] != '`'
    ensures CleanCsv(CsvFence + body + Fence) == Trim(body)
  {
    var text := CsvFence + body + Fence;
    assert IsTrimmed(text);
    TrimOfTrimmed(text);
    var t1 := CutCsvTag(text, 6);
    assert t1 == body + Fence;
    if Fence <= t1 {
      assert body == [];
      assert CutLeadingFence(t1) == [];
      assert CutTrailingFence([]) == [];
    } else {
      assert CutLeadingFence(t1) == t1;
      assert CutTrailingFence(t1) == body;
    }
  }

  /** The same for a bare "```" opening fence. */
  lemma BareFenceRoundTrip(body: string)
    requires body == [] || body[0] != '`'
    requires !("csv" <= body)
    ensures CleanCsv(Fence + body + Fence) == Trim(body)
  {
    var text := Fence + body + Fence;
    assert IsTrimmed(text);
    TrimOfTrimmed(text);
    assert text == Fence + (body + Fence);
    PrefixPastFence(CsvFence, body + Fence);
    NoCsvTagBeforeFence(body);
    assert CutCsvTag(text, 6) == text;
    assert CutLeadingFence(text) == body + Fence;
    assert CutTrailingFence(body + Fence) == body;
  }

  lemma NoCsvTagBeforeFence(body: string)
    requires !("csv" <= body)
    ensures !("csv" <= body + Fence)
  {
    if |body| >= 3 {
      assert (body + Fence)[..3] == body[..3];
    } else {
      assert (body + Fence)[|body|] == '`';
    }
  }

  /** Text without fences at either end comes back merely trimmed, by both
      the written and the corrected cleaner. */
  lemma CsvUnfencedIsTrimmed(text: string, csvCut: nat)
    requires csvCut <= |CsvFence|
    requires !(Fence <= Trim(text)) && !EndsWith(Trim(text), Fence)
    ensures StripCsvFences(text, csvCut) == Trim(text)
  {
    var t0 := Trim(text);
    assert Fence <= CsvFence;
    assert CutCsvTag(t0, csvCut) == t0;
    assert CutLeadingFence(t0) == t0;
    assert CutTrailingFence(t0) == t0;
    TrimOfTrimmed(t0);
  }

  // ---------------------------------------------------------------------------
  // Code-fence stripping of the task-log reply (JSON)
  // ---------------------------------------------------------------------------

  /** The JSON cleaner of `generateTaskLogs`: trim, cut a leading "```json",
      cut one trailing fence. It neither removes a bare leading fence nor
      trims after cutting. */
  function CleanJson(text: string): (r: string)
    ensures var t := Trim(text);
      var unfenced := if JsonFence <= t then t[|JsonFence|..] else t;
      && (EndsWith(unfenced, Fence) ==> r + Fence == unfenced)
      && (!EndsWith(unfenced, Fence) ==> r == unfenced)
  {
    var t0 := Trim(text);
    CutTrailingFence(if JsonFence <= t0 then t0[|JsonFence|..] else t0)
  }

  /** A reply wrapped as "```json" + body + "```" comes back as exactly the
      body, untrimmed. */
  lemma JsonFenceRoundTrip(body: string)
    ensures CleanJson(JsonFence + body + Fence) == body
  {
    var text := JsonFence + body + Fence;
    assert IsTrimmed(text);
    TrimOfTrimmed(text);
    assert JsonFence <= text;
    assert text[7..] == body + Fence;
    assert (body + Fence)[..|body|] == body;
  }

  /** A bare leading fence is left in place by the JSON cleaner. */
  lemma JsonKeepsBareFence(body: string)
    requires IsTrimmed(body)
    requires !("json" <= body)
    requires !EndsWith(Fence + body, Fence)
    ensures CleanJson(Fence + body) == Fence + body
  {
    var text := Fence + body;
    assert IsTrimmed(text);
    TrimOfTrimmed(text);
    PrefixPastFence(JsonFence, body);
  }

  // ---------------------------------------------------------------------------
  // Grounded request configuration
  // ---------------------------------------------------------------------------

  datatype Tool = GoogleSearch | GoogleMaps

  /** The model identifier and config of one grounded chat request; `tools`
      is `None` where the config object carries no `tools` key. */
  datatype GroundedRequest = GroundedRequest(
    prompt: string,
    model: string,
    tools: Option<seq<Tool>>,
    thinkingBudget: Option<int>)

  const ProModel: string := "gemini-2.5-pro"
  const FlashModel: string := "gemini-2.5-flash"
  const ThinkingBudget: int := 32768

  /** The request `generateGroundedResponse` sends for the three toggles. */
  function GroundedRequestFor(prompt: string, useSearch: bool, useMaps: bool, useThinking: bool): (r: GroundedRequest)
    ensures r.prompt == prompt
    ensures r.tools.None? <==> !useSearch && !useMaps
    ensures r.tools.Some? ==>
      && (GoogleSearch in r.tools.value <==> useSearch)
      && (GoogleMaps in r.tools.value <==> useMaps)
      && |r.tools.value| == (if useSearch then 1 else 0) + (if useMaps then 1 else 0)
      && (useSearch ==> r.tools.value[0] == GoogleSearch)
    ensures r.model == ProModel <==> useThinking
    ensures r.model == FlashModel <==> !useThinking
    ensures r.thinkingBudget.Some? <==> useThinking
    ensures r.thinkingBudget.Some? ==> r.thinkingBudget.value == ThinkingBudget
  {
    var tools := (if useSearch then [GoogleSearch] else []) + (if useMaps then [GoogleMaps] else []);
    GroundedRequest(
      prompt,
      if useThinking then ProModel else FlashModel,
      if |tools| > 0 then Some(tools) else None,
      if useThinking then Some(ThinkingBudget) else None)
  }

  // ---------------------------------------------------------------------------
  // First inline-data part of an image-editing reply
  // ---------------------------------------------------------------------------

  datatype InlineData = InlineData(data: string, mimeType: string)
  datatype Part = Part(inlineData: Option<InlineData>, text: Option<string>)

  /** Why `editImage` throws: the reply has no candidate (a TypeError on
      `candidates[0]`), or no part of it carries inline data. */
  datatype ImageError = MissingCandidate | NoImageGenerated

  const PngDataUriPrefix: string := "data:image/png;base64,"

  /** The index of the first part with inline data, if any. */
  function FirstInlineIndex(parts: seq<Part>): (r: Option<nat>)
    ensures r.Some? ==> r.value < |parts| && parts[r.value].inlineData.Some?
    ensures r.Some? ==> forall j :: 0 <= j < r.value ==> parts[j].inlineData.None?
    ensures r.None? ==> forall j :: 0 <= j < |parts| ==> parts[j].inlineData.None?
  {
    if |parts| == 0 then None
    else if parts[0].inlineData.Some? then Some(0)
    else match FirstInlineIndex(parts[1..])
      case None => None
      case Some(i) => Some(i + 1)
  }

  /** The data URI `editImage` returns for the candidates of a reply: the
      first part carrying inline data, re-labelled as PNG. */
  function EditedImageUri(candidates: seq<seq<Part>>): (r: Result<string, ImageError>)
    ensures |candidates| == 0 ==> r == Failure(MissingCandidate)
    ensures |candidates| > 0 ==>
      (r.Failure? <==> forall j :: 0 <= j < |candidates[0]| ==> candidates[0][j].inlineData.None?)
    ensures r.Failure? ==> r.error == (if |candidates| == 0 then MissingCandidate else NoImageGenerated)
    ensures r.Success? ==> exists i :: (0 <= i < |candidates[0]|
      && (forall j :: 0 <= j < i ==> candidates[0][j].inlineData.None?)
      && candidates[0][i].inlineData.Some?
      && r.value == PngDataUriPrefix + candidates[0][i].inlineData.value.data)
  {
    if |candidates| == 0 then Failure(MissingCandidate)
    else match FirstInlineIndex(candidates[0])
      case None => Failure(NoImageGenerated)
      case Some(i) => Success(PngDataUriPrefix + candidates[0][i].inlineData.value.data)
  }
}
