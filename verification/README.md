# DINESHKUMAR.AI office-automation front end — a Dafny model of its logic

The application is a React front end over a hosted generative-AI SDK. Almost
all of it is display code. This project models the parts that compute
something, as immutable datatypes and pure functions:

- **Request/response client** (`services/geminiService.ts`).
  - `GeminiService`: stripping Markdown code fences from model replies (CSV and JSON).
  - `GeminiService`: the model and tool configuration of a grounded chat request.
  - `GeminiService`: the first-inline-part scan of an image-editing reply.
  - `AudioCodec`: the byte/binary-string loops around base64.
  - `AudioCodec`: float-to-16-bit conversion of captured microphone frames (`createPcmBlob`).
  - `AudioCodec`: 16-bit-to-float de-interleaving of received audio (`decodeAudioData`).
- **Live voice assistant** (`LiveAssistant`). A four-state connection machine, the interim and finalized transcripts, and the playback watermark that schedules received audio chunks back to back. Each handler is one atomic step on a `State` record.
- **Integration manager** (`IntegrationManager`). Toggle by name, and the status filter with a case-insensitive name search.
- **Bulk conversion queue** (`BulkFileConversion`). Dropped files are appended as pending. A pass processes the pending entries of a snapshot in order. Statuses are updated by id.
- **Dashboard** (`Dashboard`). The rewrite of the CSV download name (`/\.[^/.]+$/` replaced, then `.csv` appended). Also the guards and resets of the PDF, summary and Excel panels.
- **Data & insights chat** (`DataInsights`). The send guard, the user/bot message sequence, and the mapping and filtering of web-or-maps grounding sources.

Shared helpers:
- `Wrappers`: `Option` and `Result`.
- `Text`: JavaScript `trim`, `endsWith`, `includes`, ASCII `toLowerCase`, decimal rendering, and string truthiness.
- `Sequences`: the order-preserving subsequence relation.

Remote calls, the clock and the browser's base64 functions are parameters of
the model. Their results arrive as inputs: `Option`/`Result` values, `now: real`,
and `atob`/`btoa` as functions.

## Model

| member | source | states |
|---|---|---|
| GeminiService.CleanCsvAsWritten | services/geminiService.ts:65-76 | The CSV cleaner as written: any reply whose trimmed text starts with "```csv" comes back starting with a stray 'v' |
| GeminiService.CsvAsWrittenOnFenced | services/geminiService.ts:65-76 | As written, "```csv" + body + "```" cleans to trim("v" + body) for every body |
| GeminiService.CsvAsWrittenKeepsStrayV | services/geminiService.ts:66-67 | Concrete case: "```csv\na,b\n```" gives "v\na,b" as written, and "a,b" with the corrected cut |
| GeminiService.StripCsvFences | services/geminiService.ts:65-76 | Whatever the cut length, the CSV cleaner's result has no whitespace at either end |
| GeminiService.CutCsvTag | services/geminiService.ts:66-68 | A leading "```csv" is cut by the given prefix length; text without that tag is unchanged |
| GeminiService.CutLeadingFence | services/geminiService.ts:69-71 | Exactly one leading bare fence is removed when present, otherwise nothing |
| GeminiService.CutTrailingFence | services/geminiService.ts:72-74 | Exactly one trailing fence is removed when present, otherwise nothing |
| GeminiService.CleanCsv | services/geminiService.ts:65-76 | The corrected cleaner (a 6-character tag cut) returns text with no whitespace at either end |
| GeminiService.CsvFenceRoundTrip | services/geminiService.ts:65-76 | Corrected cleaner: "```csv" + body + "```" cleans to trim(body) when the body does not start with a backtick |
| GeminiService.BareFenceRoundTrip | services/geminiService.ts:69-76 | Corrected cleaner: "```" + body + "```" cleans to trim(body) when the body starts with neither a backtick nor "csv" |
| GeminiService.CsvUnfencedIsTrimmed | services/geminiService.ts:65-76 | Text with no fence at either trimmed end comes back as trim(text), as written and corrected |
| GeminiService.CleanJson | services/geminiService.ts:149-156 | After trimming and cutting a leading "```json", the result is that text with exactly one trailing "```" removed when it ends with one, and that text unchanged otherwise |
| GeminiService.JsonFenceRoundTrip | services/geminiService.ts:149-156 | "```json" + body + "```" comes back as exactly body, untrimmed |
| GeminiService.JsonKeepsBareFence | services/geminiService.ts:150-152 | A bare leading "```" is not removed by the JSON cleaner |
| GeminiService.GroundedRequestFor | services/geminiService.ts:214-221 | tools holds googleSearch iff useSearch and googleMaps iff useMaps, with search first. tools is absent iff both are off. The model is gemini-2.5-pro with budget 32768 iff useThinking, otherwise gemini-2.5-flash with no budget |
| GeminiService.FirstInlineIndex | services/geminiService.ts:263-264 | The index found carries inline data and no earlier part does. None iff no part carries inline data |
| GeminiService.EditedImageUri | services/geminiService.ts:263-268 | The PNG data URI of the first inline-data part of the first candidate. Fails with NoImageGenerated iff no part has inline data, and with MissingCandidate when there is no candidate |
| AudioCodec.EncodeBinary | services/geminiService.ts:4-9 | The encode loop gives one character per byte, with character code equal to the byte |
| AudioCodec.DecodeBinary | services/geminiService.ts:13-20 | The decode loop gives one byte per character, equal to the code unit modulo 256 |
| AudioCodec.Encode | services/geminiService.ts:4-11 | encode is btoa of the binary string of the bytes |
| AudioCodec.Decode | services/geminiService.ts:13-21 | decode is the bytes of atob's output |
| AudioCodec.BinaryRoundTrip | services/geminiService.ts:4-20 | Reading back the binary string of a byte sequence gives the bytes |
| AudioCodec.Base64RoundTrip | services/geminiService.ts:4-21 | If atob undoes btoa on the binary string, decode(encode(b)) == b and the length is kept |
| AudioCodec.ToInt16 | services/geminiService.ts:377 | The Int16Array store conversion: a 16-bit value congruent to the truncated number modulo 2^16 |
| AudioCodec.SampleAsWritten | services/geminiService.ts:377 | As written, a sample x in [-1, 1) is stored as trunc(x * 32768) |
| AudioCodec.FullScaleWraps | services/geminiService.ts:377 | As written, x = 1.0 is stored as -32768 |
| AudioCodec.Sample | services/geminiService.ts:377 | Corrected conversion: equals the as-written one on [-1, 1). It saturates to 32767 for x >= 1 and to -32768 for x < -1 |
| AudioCodec.Int16Bytes | services/geminiService.ts:375-380 | The bytes behind an Int16Array: 2 per value, and reading each little-endian pair back gives the value |
| AudioCodec.CreatePcmBlob | services/geminiService.ts:373-383 | As written: the blob's mime type is audio/pcm;rate=16000 and its data is btoa of the little-endian bytes of the samples converted without clamping (so 1.0 wraps) |
| AudioCodec.PcmBlobLength | services/geminiService.ts:374-380 | A frame of l samples becomes 2*l bytes, with either conversion |
| AudioCodec.FullScaleBytesSent | services/geminiService.ts:375-380 | As written, a full-scale sample reaches the server as the bytes 00 80 (-32768); the corrected conversion sends FF 7F (32767) |
| AudioCodec.Int16View | services/geminiService.ts:29 | The Int16Array view fails iff the byte length is odd. Otherwise it has byteLength/2 values, each the little-endian pair at its index |
| AudioCodec.Deinterleave | services/geminiService.ts:33-38 | numChannels channels of floor((byteLen/2)/numChannels) frames. Channel c frame i is int16[i*numChannels + c] / 32768 |
| AudioCodec.DecodeAudioData | services/geminiService.ts:23-40 | Odd length gives OddByteLength. Success iff the length is even and channels, rate and frame count are positive. Other failures are NotSupported. On success the buffer carries the rate, the frame count and the de-interleaved channels |
| AudioCodec.DecodedSamples | services/geminiService.ts:29-36 | Every decoded sample is the 16-bit value at i*numChannels + c over 32768, so it lies in [-1, 32767/32768] |
| AudioCodec.PcmRoundTrip | services/geminiService.ts:23-40 | Corrected conversion: a mono frame in [-1, 1], converted and decoded, comes back within 1/32768 of each sample |
| AudioCodec.PcmRoundTripAsWritten | services/geminiService.ts:23-40 | As written, the same round trip holds for frames in [-1, 1), where the two conversions agree |
| AudioCodec.FullScaleRoundTripAsWritten | services/geminiService.ts:373-383 | As written, a full-scale 1.0 sample is sent as -32768, which decodes to -1.0 |
| LiveAssistant.Cleanup | components/LiveAssistant.tsx:24-37 | Every ref is nulled and nothing else changes |
| LiveAssistant.HandleStart | components/LiveAssistant.tsx:45-127 | A no-op unless 'disconnected'. Otherwise transcripts and interim are cleared, the closure captures the interim shown at the click, and the chunk counter, sent frames and sources are kept. Launched: 'connecting', both contexts and the session set, watermark 0. Setup failure after the device grant: 'error', both contexts set, session ref unchanged, watermark 0. Device refused: 'error', refs and watermark unchanged. No other ref changes |
| LiveAssistant.HandleOpen | components/LiveAssistant.tsx:59-76 | The state becomes 'connected'. The capture nodes exist afterwards iff the input context did |
| LiveAssistant.HandleFrame | components/LiveAssistant.tsx:64-71 | A captured frame is sent iff the processor and the session ref exist |
| LiveAssistant.ApplyTranscripts | components/LiveAssistant.tsx:79-88 | Transcription deltas extend the interim pair. On turnComplete exactly one turn is appended, the closure's captured pair, and the interim resets |
| LiveAssistant.NewChunk | components/LiveAssistant.tsx:91-101 | A chunk is scheduled iff the audio is non-empty, the output context exists and decoding succeeds. It starts at max(watermark, now) |
| LiveAssistant.Interrupt | components/LiveAssistant.tsx:105-111 | Every playing source is stopped and removed, and the watermark resets to 0. Nothing else changes |
| LiveAssistant.HandleMessage | components/LiveAssistant.tsx:77-112 | Transcripts, then audio, then interrupt. A scheduled chunk advances the watermark by its duration. With interrupted it is stopped at once. A decode failure leaves the watermark raised and skips the interrupt. Connection, refs, sent frames and the captured pair are unchanged |
| LiveAssistant.HandleSourceEnded | components/LiveAssistant.tsx:99 | An ended source leaves the playing set and nothing else changes |
| LiveAssistant.Step | components/LiveAssistant.tsx:46-134 | Connection transitions: Start from 'disconnected' goes to 'connecting' when launched and to 'error' otherwise. onopen goes to 'connected', onerror to 'error', onclose and Stop to 'disconnected'. Every cleanup path (onerror, onclose, Stop, unmount) nulls every ref |
| LiveAssistant.InterimIsConcatenation | components/LiveAssistant.tsx:79-84 | Between resets, the interim user and model text are the in-order concatenation of the transcription deltas |
| LiveAssistant.StaleTurnAppended | components/LiveAssistant.tsx:77-88 | As written: after Start, open and the input deltas "hel" and "lo" the interim shows "hello", yet turnComplete appends the empty pair captured at Start |
| LiveAssistant.ApplyTranscriptsCorrected | components/LiveAssistant.tsx:79-88 | Corrected transcription step: turnComplete appends the accumulated interim pair extended by this message's deltas, then resets the interim; otherwise the deltas extend the interim. Nothing else changes |
| LiveAssistant.CorrectedTurnIsConcatenation | components/LiveAssistant.tsx:79-88 | Corrected: a run of messages ending in its only turnComplete appends exactly one turn, the in-order concatenation of all its deltas after the prior interim, and empties the interim |
| LiveAssistant.NoFramesWithoutSession | components/LiveAssistant.tsx:67 | Once the session ref is null, no trace without a new Start sends a frame |
| LiveAssistant.CleanupIdempotent | components/LiveAssistant.tsx:24-37 | cleanup twice equals cleanup once, and a frame after it is dropped |
| LiveAssistant.StartOnlyFromDisconnected | components/LiveAssistant.tsx:46 | From any state but 'disconnected', any number of Start clicks changes nothing |
| LiveAssistant.MessageKeepsWatermark | components/LiveAssistant.tsx:94-102 | The watermark stays at or past the end of every playing chunk, so a new chunk never overlaps one already playing |
| LiveAssistant.ConsecutiveChunksAbut | components/LiveAssistant.tsx:94-101 | With the watermark ahead of the clock, the next chunk starts exactly where the previous one ended |
| LiveAssistant.InterruptRestartsAtNow | components/LiveAssistant.tsx:105-111 | After an interrupting message, with or without audio of its own, nothing plays and the next chunk starts at the then-current time. A message whose audio fails to decode skips the interrupt and is excluded |
| IntegrationManager.Toggle | components/IntegrationManager.tsx:58-66 | Length is kept. Entries with the name have their status flipped and all other fields kept. Other entries are unchanged |
| IntegrationManager.ToggleTwice | components/IntegrationManager.tsx:58-66 | Toggling the same name twice is the identity |
| IntegrationManager.ToggleAbsent | components/IntegrationManager.tsx:58-66 | Toggling a name no entry carries is the identity |
| IntegrationManager.ToggleFlipsExactlyNamed | components/IntegrationManager.tsx:61-63 | An entry's status changes iff its name matches, and no other field changes |
| IntegrationManager.Filtered | components/IntegrationManager.tsx:68-72 | An entry is shown iff it passes the status filter and its lower-cased name includes the lower-cased term. Each matching entry appears as often as in the list, each other entry never |
| IntegrationManager.FilteredIsSubsequence | components/IntegrationManager.tsx:68-72 | The filtered list is an order-preserving subsequence of the list |
| IntegrationManager.EmptySearch | components/IntegrationManager.tsx:69-70 | An empty term with 'all' shows the whole list. With 'connected' it shows exactly the connected entries |
| IntegrationManager.InitialList | components/IntegrationManager.tsx:14-21 | Six entries with distinct names. Exactly Dropbox and Zapier are connected |
| BulkFileConversion.FileId | components/BulkFileConversion.tsx:25 | The id splits into the file name, a '-', and the decimal rendering of lastModified |
| BulkFileConversion.OnDrop | components/BulkFileConversion.tsx:21-28 | The old entries are kept. The dropped files follow in order, each pending with id name-lastModified |
| BulkFileConversion.DropKeepsUniqueIds | components/BulkFileConversion.tsx:21-28 | After a drop the ids are unique iff they were before and the dropped files' ids are pairwise distinct and new to the queue |
| BulkFileConversion.SetStatus | components/BulkFileConversion.tsx:43 | All entries with the id take the status, other entries are unchanged, and the length is kept |
| BulkFileConversion.StartEnabledIff | components/BulkFileConversion.tsx:126 | Start is enabled iff the queue is idle and holds a pending entry, so the empty queue disables it |
| BulkFileConversion.ClearQueue | components/BulkFileConversion.tsx:131-136 | Clear Queue yields the empty queue. It is disabled while processing |
| BulkFileConversion.PassFrom | components/BulkFileConversion.tsx:42-62 | Every intermediate state of the pass has isProcessing set and the queue length unchanged |
| BulkFileConversion.ProcessFiles | components/BulkFileConversion.tsx:39-65 | isProcessing is set in every state of the pass and cleared at the end. The states are those of the in-order pass over the snapshot |
| BulkFileConversion.PassOutcome | components/BulkFileConversion.tsx:42-62 | An entry whose id a pending snapshot entry carries ends completed or error. Every other entry keeps its status. Files and ids never change |
| BulkFileConversion.PassLeavesNoPending | components/BulkFileConversion.tsx:58-62 | After a pass no entry is pending |
| BulkFileConversion.PassWithUniqueIds | components/BulkFileConversion.tsx:42-62 | With unique ids, each pending entry ends as its own conversion went, and every other entry is untouched |
| BulkFileConversion.PassTransitions | components/BulkFileConversion.tsx:43-53 | With unique ids every step moves an entry only pending to processing, or processing to completed or error |
| BulkFileConversion.DuplicateIdRetouched | components/BulkFileConversion.tsx:25-60 | The same file dropped twice is processed twice. The first entry goes from completed back to processing |
| Dashboard.StripExtension | components/Dashboard.tsx:88 | The regex match of /\.[^/.]+$/ is cut when there is one, otherwise the name is unchanged |
| Dashboard.DownloadName | components/Dashboard.tsx:88 | The download name is the file name cut at the start of the `/\.[^/.]+$/` match, when there is one, followed by ".csv"; without a match it is the whole name followed by ".csv" |
| Dashboard.DownloadNameLastExtension | components/Dashboard.tsx:88 | "a.b.pdf" saves as "a.b.csv" |
| Dashboard.DownloadNameNoDot | components/Dashboard.tsx:88 | "report" saves as "report.csv" |
| Dashboard.DownloadNameDotBeforeSlash | components/Dashboard.tsx:88 | "dir.x/file" saves as "dir.x/file.csv" |
| Dashboard.DownloadNameTrailingDot | components/Dashboard.tsx:88 | "file." saves as "file..csv" |
| Dashboard.BeginPdfUpload | components/Dashboard.tsx:57-66 | No file means nothing happens. Otherwise the old CSV, summary and both errors are cleared, the name is recorded, and processing starts |
| Dashboard.FinishPdfUpload | components/Dashboard.tsx:68-79 | On success the CSV is the reply as the client's cleaner returns it, stray 'v' included. On failure the fixed PDF error is set. Processing ends and nothing else changes |
| Dashboard.DownloadCsv | components/Dashboard.tsx:82-92 | A download happens iff CSV and file name are both non-empty. It saves the CSV under the rewritten name |
| Dashboard.BeginSummary | components/Dashboard.tsx:94-99 | A request is made iff CSV and file name are both non-empty. Otherwise nothing changes |
| Dashboard.FinishSummary | components/Dashboard.tsx:101-109 | The summary on success, the fixed summary error on failure. Generation ends and nothing else changes |
| Dashboard.BeginExcelUpload | components/Dashboard.tsx:116-123 | No file means nothing happens. Otherwise the old report and error are cleared and the name is recorded |
| Dashboard.FinishExcelUpload | components/Dashboard.tsx:125-136 | The report on success, the fixed Excel error on failure. Processing ends and nothing else changes |
| Dashboard.PreviewReport | components/Dashboard.tsx:139-140 | The preview runs iff report and file name are both non-empty |
| Dashboard.UploadDisablesDownload | components/Dashboard.tsx:61-66 | While a new PDF is processed neither download nor summary can run. A failed upload keeps it so |
| Dashboard.UploadThenDownload | components/Dashboard.tsx:57-92 | After a successful upload whose cleaned CSV (as the client cleans it) is non-empty, the download is that CSV under the rewritten name |
| Dashboard.FencedReplyDownloadsStrayV | components/Dashboard.tsx:68-92 | A reply "```csv\na,b\n```" is downloaded as "v\na,b": the stray 'v' reaches the file |
| DataInsights.ToSource | components/DataInsights.tsx:40-43 | Each of uri and title is the web value when truthy, otherwise the maps value |
| DataInsights.SourcesOf | components/DataInsights.tsx:40-43 | Only sources with a truthy uri remain, each as often as among the mapped chunks, and none is invented |
| DataInsights.Sources | components/DataInsights.tsx:37-39 | No grounding chunks gives an empty source list |
| DataInsights.SourcesKeepOrder | components/DataInsights.tsx:40-43 | The sources are an order-preserving subsequence of the mapped chunks |
| DataInsights.LinkLabel | components/DataInsights.tsx:92 | A link shows its title when non-empty, otherwise its uri |
| DataInsights.SourceLabelsShown | components/DataInsights.tsx:89-92 | Every listed source shows a non-empty link label |
| DataInsights.BeginSend | components/DataInsights.tsx:25-35 | Blank input or loading means no change. Otherwise the user message is appended, the input cleared, loading set, and the request built from the pre-clear input and the toggles |
| DataInsights.Reply | components/DataInsights.tsx:46-51 | The bot reply carries the response text and its sources, or the fixed apology with no sources |
| DataInsights.FinishSend | components/DataInsights.tsx:46-54 | Exactly one bot message is appended and loading ends |
| DataInsights.BlankOrLoadingIsNoOp | components/DataInsights.tsx:27 | Sending a whitespace-only input, or while loading, changes nothing |
| DataInsights.SendAppendsExchange | components/DataInsights.tsx:27-54 | One send appends the user message and then exactly one bot message, and clears the input. A second send during it is refused |
| DataInsights.InitialChat | components/DataInsights.tsx:8-10 | The chat starts with a single bot message carrying the fixed greeting and no sources, and Send is disabled |

## Left out

- Remote SDK calls (`generateContent`, `live.connect`, chats, video polling, `fetch`). Their results are inputs: `Option`/`Result` values, `succeeds(k)`, or a `Response` record.
- `btoa`/`atob` (base64, section 4 of RFC 4648). They are function parameters. The round trip is assumed per call, as a precondition of `AudioCodec.Base64RoundTrip`.
- Web Audio and devices (AudioContext, ScriptProcessorNode, getUserMedia). The playback clock is the `now` of each message, and a chunk's duration comes from the decoded buffer.
- `createBuffer`'s limits on channel count (at most 32) and sample rate (3000 to 768000 Hz) are not modelled. Only zero channels, zero frames and a zero rate fail.
- Big-endian hosts. The Int16Array views are modelled little-endian.
- IEEE float rounding. Samples are `real`, which is exact for the scaling by 32768.
- A message whose first model-turn part lacks `inlineData` throws a TypeError in the handler. The model reads the audio as present or absent.
- Async interleaving. Overlapping `onmessage` calls across the decode `await`, React state batching, and files dropped during a bulk pass are not modelled; each handler step is atomic.
- Unicode case mapping. The integration search lower-cases ASCII letters only.
- Decimal rendering of `lastModified` is exact for integers. Numbers of 1e21 or more, which JavaScript renders in exponent form, are out of scope.
- JSX rendering, styling, routing, `marked`, FileReader, Blob, `URL.createObjectURL`, and the print window.
- Parts of the chat response other than the text and the first candidate's grounding chunks.
- LiveAssistant.HandleStart: the three outcomes are the device refusal, success, and the session setup throwing after both contexts exist (no API key). A constructor of either AudioContext throwing, which would leave fewer contexts set, and a rejected session promise are not distinguished.
- AudioCodec.Decode and LiveAssistant.NewChunk: `atob` is total here. Its InvalidCharacterError on malformed base64 is not modelled.
- GeminiService.EditedImageUri: a candidate without `content` or `parts` throws a TypeError in the source; the model gives every candidate a parts list.
- AudioCodec.Base64RoundTrip: states the byte round trip under the assumption that `atob` inverts `btoa`, because base64 itself belongs to the browser.

## Findings

| source | as written | input that shows it | evidently intended | confidence | as-written member | corrected member |
|---|---|---|---|---|---|---|
| services/geminiService.ts:66-67 | `csvData.substring(5)` after `startsWith('```csv')` drops only 5 of the 6 tag characters | the reply "```csv\na,b\n```" cleans to "v\na,b" | `substring(6)`, which gives "a,b" | high, not executed | GeminiService.CleanCsvAsWritten | GeminiService.CleanCsv |
| services/geminiService.ts:377 | `int16[i] = inputData[i] * 32768` stores 32768 for a sample of exactly 1.0, and the Int16Array wraps it to -32768 | a captured sample 1.0 is sent as the bytes 00 80, so the server receives -32768 (full negative scale) | clamp to [-32768, 32767] before the store, so 1.0 becomes 32767 | high, not executed | AudioCodec.FullScaleBytesSent | AudioCodec.PcmRoundTrip |
| components/LiveAssistant.tsx:85-88 | on turnComplete the handler appends `currentInterim`, the value its closure captured when Start was clicked, not the interim accumulated since | Start, open, input deltas "hel" and "lo", then turnComplete: the interim shows "hello" and an empty turn is appended | append the accumulated interim (for instance through a functional state update), giving the turn ("hello", "") | high, not executed | LiveAssistant.StaleTurnAppended | LiveAssistant.CorrectedTurnIsConcatenation |
