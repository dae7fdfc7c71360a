# Amazon Polly synthesis pipeline — a Dafny model

This project models the request pipeline of a small text-to-speech service
built on Amazon Polly. It covers what the code decides before and around each
remote call:

- the text chunker, which keeps each `synthesize_speech` request under the length limit;
- the paginated voice catalog (`describe_voices` with `NextToken`);
- the voice resolver;
- the synthesis driver, which checks the format, builds the parameters and
  sends one request per chunk;
- the engine resolver inlined in both HTTP handlers;
- the request-level decisions of the command line (`main_cli`) and of the two
  `/synthesize` handlers: empty-text rejection, upload handling, translation,
  language precedence, WAV parameters, media types and response headers.

The remote services are parameters:

- the voice catalog is a function from the `LanguageCode` sent to a listing
  (or a failure);
- a paginated listing is a sequence of service responses;
- speech synthesis is a function from a request to audio bytes;
- translation is a function from (text, source, target) to a translation or an error.

backend/polly.py and backend/polly_tts.py carry the same `list_voices`,
`select_voice`, `_chunk_text` and `synthesize`, so they are modelled once
(modules `Chunker`, `Voices` and `Synthesis`), and the table cites either
file. Apart from local names and comments they differ in one point:
`synthesize` and `synthesize_to_file` in backend/polly.py default `voice_id`
to "Joanna" (backend/polly.py:93), where backend/polly_tts.py:86 has no
default. Every caller in the model passes a voice id, so the default never
applies and the model's operations take the voice id as a plain argument.

polly/api.py imports `PollyTTS` from a module `polly` that is not part of this
model. The model takes it to behave as the `PollyTTS` class of
backend/polly.py, whose `select_voice` and `synthesize` both handlers call.

Modules:

| module | file | models |
|---|---|---|
| `PyValues` | py_values.dfy | truthiness, `or`, `str.strip`, `str.lower`, `str(int)`, `"".join`, `sep.join` |
| `Chunker` | chunker.dfy | `_chunk_text` |
| `Voices` | voices.dfy | `list_voices`, `select_voice` |
| `Synthesis` | synthesis.dfy | `synthesize` |
| `AudioOutput` | audio_output.dfy | the WAV plan, the media-type table, `synthesize_to_file` |
| `Engines` | engines.dfy | the engine resolution of both handlers |
| `Cli` | cli.dfy | `main_cli` from the text check on |
| `Http` | http_model.dfy | uploads, calls, responses and the audio stream shared by both handlers |
| `BackendApi` | backend_api.dfy | `synthesize` in backend/api.py |
| `PollyApi` | polly_api.dfy | `synthesize` in polly/api.py |

The loops that build a value step by step are methods with invariants:
the chunking loop (`Chunker.ChunkText`), the paging loop
(`Voices.FetchPages`), the request loop (`Synthesis.SendChunks`), the
frame-writing loop (`AudioOutput.WriteFrames`), the PDF page loop and its
join (`PollyApi.CollectPdfText`, `PollyApi.JoinLines`) and the successive
reassignments of the engine (`Engines.ResolveEngine`). Each such method is
proved equal to a function that specifies it, and the properties are lemmas
about those functions. Two loops are modelled as functions only: the search
`for v in voices: if <neural>: return v["Id"]` (backend/polly_tts.py:61-63)
is the recursive function `Voices.FirstWhere`, and the generator loops of
`iter_audio` (backend/api.py:121-138, polly/api.py:121-137) are the function
`Http.StreamFor` over the specification of `synthesize`.

A note on the chunker's break search: it takes
`max(rfind("\n"), rfind(". "), rfind(" "))`. The space inside a ". " match
always scores one higher than the match itself, so the ". " search never
decides the cut (`Chunker.DotSpaceNeverDecides`). Every cut falls just after
the window's last newline or space.

## Model

| member | source | states |
|---|---|---|
| PyValues.StripLeft | backend/api.py:78 | the leading part removed by `strip()` is all whitespace and the rest starts with non-whitespace |
| PyValues.StripRight | backend/api.py:78 | the trailing part removed by `strip()` is all whitespace and the rest ends with non-whitespace |
| PyValues.BlankIffAllSpace | backend/polly.py:222-223 | `not s.strip()` holds exactly when every character is whitespace |
| PyValues.NatDigits | backend/polly_tts.py:100-101 | the decimal digits of a natural number: non-empty, digits only, a leading zero only for 0 |
| PyValues.NatDigitsRoundTrip | backend/polly_tts.py:100-101 | reading the digits back gives the number |
| PyValues.ParseNegative | backend/polly_tts.py:100-101 | a minus sign followed by the digits of m reads back as -m |
| PyValues.ParseUnsigned | backend/polly_tts.py:100-101 | the digits of m read back as m |
| PyValues.DecimalStringRoundTrip | backend/polly_tts.py:100-101 | `str(sample_rate)` reads back as the same integer, negative or not |
| Chunker.RFindChar | backend/polly_tts.py:75 | `rfind` of a character: -1 or an index holding it, with none after it |
| Chunker.RFindDotSpace | backend/polly_tts.py:75 | `rfind(". ")`: -1 or the start of the last ". " |
| Chunker.DotSpaceNeverDecides | backend/polly_tts.py:75 | the maximum of the three searches equals the maximum of the newline and space searches |
| Chunker.LastBreakIsLastNewlineOrSpace | backend/polly_tts.py:75 | the break index is the window's last newline or space, or -1 when it has none |
| Chunker.CutEnd | backend/polly_tts.py:72-78 | each iteration moves the start forward by at least 1 and at most `max_len`, and stays inside the text |
| Chunker.ChunkText | backend/polly_tts.py:66-81 | the loop returns the chunk sequence the chunker specification defines |
| Chunker.ChunksRoundTrip | backend/polly_tts.py:71-80 | concatenating the chunks gives back the text exactly |
| Chunker.ChunksFromConcat | backend/polly.py:76-88 | from any start, the remaining chunks concatenate to the rest of the text |
| Chunker.ChunksFromBounded | backend/polly.py:78-85 | from any start, every remaining chunk is non-empty and at most `max_len` long |
| Chunker.ChunksBounded | backend/polly_tts.py:67-78 | short text (even empty) gives `[text]`; every chunk is at most `max_len`, and non-empty when the text is longer |
| Chunker.CutInsideText | backend/polly_tts.py:74-78 | an iteration that stops before the end cuts after the last newline or space at offset 1 or more, or hard at `max_len` |
| Chunker.FirstChunkCut | backend/polly_tts.py:74-78 | when more chunks follow, the first chunk ends on a natural or a hard cut |
| Chunker.ChunkCuts | backend/polly_tts.py:74-78 | every chunk but the last ends just after the window's last newline or space, or is exactly `max_len` long |
| Voices.StopIndex | backend/polly_tts.py:38 | the first response without a `NextToken`: every earlier one has one |
| Voices.FetchPages | backend/polly_tts.py:36-41 | the paging loop reads up to the first response without a token, sends the requests and gathers the voices of every page read |
| Voices.ListVoices | backend/polly_tts.py:31-42 | the listing holds the voices of every page up to the last, or fails when that call fails; `LanguageCode` is sent only when truthy |
| Voices.RequestsCarryTokens | backend/polly_tts.py:32-40 | the first request carries no token and each later one carries the previous page's token |
| Voices.VoicesFromPages | backend/polly.py:33-44 | a voice is listed exactly when it is on one of the pages read |
| Voices.Filter | backend/polly_tts.py:55 | the comprehension keeps at most every voice and is empty exactly when no voice passes |
| Voices.SelectVoice | backend/polly_tts.py:50-51 | a truthy preferred id is returned unchanged, with no listing |
| Voices.FilterThenFirst | backend/polly_tts.py:55-63 | the first neural voice among the candidates is the first voice of the catalog that both matches and supports neural |
| Voices.FilterHead | backend/polly_tts.py:64 | the first candidate is the first catalog voice that passes the filter |
| Voices.FilterKeepingAll | backend/polly_tts.py:53-55 | a filter that every voice passes returns the list unchanged |
| Voices.PickFollowsCatalogOrder | backend/polly.py:65-69 | the voice chosen is the first matching voice that supports neural, or else the first matching voice |
| Voices.SelectFromLanguageCatalog | backend/polly_tts.py:52-64 | a language listing with a matching voice answers alone, in catalog order, with one listing call |
| Voices.SelectFallsBackToGlobalCatalog | backend/polly.py:59-69 | with no match in the language listing, the global listing is searched with the gender filter only, and "Joanna" is the answer when nothing matches there either |
| Voices.SelectFailsWithCatalog | backend/polly_tts.py:52-57 | a listing that raises makes the resolution fail |
| Synthesis.RequestParams | backend/polly_tts.py:95-103 | the parameters follow each key's rule: format and voice always; engine and language only when truthy; sample rate only when given; text type only for "text" or "ssml" |
| Synthesis.ParamsSpecDetermines | backend/polly.py:107-118 | those key rules fix the whole parameter map |
| Synthesis.SampleRateReadsBack | backend/polly_tts.py:100-101 | the `SampleRate` string reads back as the rate given |
| Synthesis.BuildParams | backend/polly_tts.py:95-103 | the conditional insertions build the specified map |
| Synthesis.SendChunks | backend/polly_tts.py:104-106 | the request loop sends one request per chunk and collects the audio in order |
| Synthesis.Synthesize | backend/polly_tts.py:83-106 | the format check, the parameters and the request loop, as specified |
| Synthesis.SynthesisRequests | backend/polly_tts.py:93-106 | a format outside mp3/ogg_vorbis/pcm fails before any request; otherwise the requests carry the chunks in order, rebuild the text, respect the length limit and carry the specified parameters, and each audio piece is that request's answer |
| AudioOutput.WavRate | backend/polly.py:144 | `sample_rate or 16000`: never 0; the given rate when non-zero, else 16000 |
| AudioOutput.PlanOutputKeepsRates | backend/polly.py:142-171 | "wav" requests pcm at the WAV rate, mono and 16-bit; every other format passes through with its sample rate |
| AudioOutput.MediaType | backend/api.py:140-145 | the media type is application/octet-stream exactly for formats outside the table |
| AudioOutput.MediaTypeKnownIffAccepted | polly/api.py:139-144 | a format has a known media type exactly when its planned request is one `synthesize` accepts |
| AudioOutput.WriteFrames | backend/polly.py:165-171 | the write loop writes the pieces one after another |
| AudioOutput.SynthesizeToFile | backend/polly.py:123-172 | the WAV and pass-through branches produce the specified file |
| AudioOutput.FileRequestsCoverText | backend/polly.py:142-172 | the file is written exactly when the planned format is accepted, and its requests rebuild the text with the planned parameters |
| AudioOutput.WavFileIsWritten | backend/polly.py:142-159 | a WAV file is always written, as mono 16-bit at `sample_rate or 16000`, from pcm requests over the text's chunks |
| Engines.FirstWithId | backend/api.py:107 | `next(...)` finds the first voice with the id, or none |
| Engines.ResolveEngine | backend/api.py:104-119 | the successive reassignment of `selected_engine` gives the specified engine |
| Engines.EngineFallsBack | backend/api.py:104-119 | when the listing raises or the voice is not listed, the requested engine is kept |
| Engines.EngineForFoundVoice | polly/api.py:101-109 | a listed voice with no engines gives none; a supported request (compared in lower case) is kept as given; otherwise "neural", else "standard", else none; the result is always supported |
| Cli.SsmlLang | backend/polly.py:243 | the SSML language is the accent when truthy, else the language code when truthy, else "en-US"; never empty |
| Cli.WrapSsmlRoundTrip | backend/polly.py:244 | the text comes back out of the SSML wrapping unchanged |
| Cli.MainCli | backend/polly.py:220-257 | the text check, voice resolution, style wrapping and file synthesis give the specified outcome |
| Cli.BlankTextExitsFirst | backend/polly.py:222-223 | the run exits with "No text provided." exactly when the text is empty or all whitespace |
| Cli.StyledRunSendsSsml | backend/polly.py:235-257 | with a style and an accepted format, the file is written, every request is sent as SSML, and the requests rebuild the wrapped document, which unwraps to the given text |
| Http.SplitOn | polly/api.py:82 | splitting gives at least one piece |
| Http.IndexOf | polly/api.py:82 | the first position of the separator, or the length |
| Http.JoinSplitRoundTrip | polly/api.py:79-82 | page texts without newlines are recovered by splitting their newline join |
| Http.NoTextIffBlank | polly/api.py:86-87 | `not text or not text.strip()` holds exactly when the text is absent, empty or all whitespace |
| Http.StreamCoversText | backend/api.py:122-138 | the stream is rejected exactly when the planned format is; "wav" is never rejected and is mono 16-bit at `sample_rate or 16000`; the requests rebuild the text, as plain text with the planned parameters |
| BackendApi.BackendSynthesize | backend/api.py:49-156 | the handler gives the specified response and calls |
| BackendApi.Prepare | backend/api.py:69-97 | the text choice, empty check and translation give the specified prelude |
| BackendApi.Speak | backend/api.py:100-156 | voice selection, engine resolution, stream and headers give the specified response |
| BackendApi.BackendEmptyTextRejected | backend/api.py:69-79 | the upload is read only when the form text is empty or absent; the answer is 400 exactly when the text is empty or all whitespace, and then no remote call is made |
| BackendApi.BackendTranslatesOnlyWhenAsked | backend/api.py:82-97 | translation happens exactly when both languages are given and differ; its failure answers 500 with the detail; otherwise the translated text is spoken |
| BackendApi.BackendReportsTranslation | backend/api.py:82-152 | `X-Translated` is "true" exactly when the text was translated; the translation is the first call, and every later call is a voice listing |
| BackendApi.SpeakCalls | backend/api.py:100-119 | after the text is settled, calls are only appended, they are only listings, and no JSON error follows |
| BackendApi.BackendHeadersSet | backend/api.py:140-154 | a streamed response carries exactly the five headers: attachment name, languages or "", translation flag and voice id; its media type follows the format |
| BackendApi.BackendLanguageAndEngine | backend/api.py:101-137 | with no voice given, the first listing after the text is settled asks for `dst_lang or accent or language_code`; the voice is chosen and the audio requested in that language, with the engine resolved from the global listing, and the requests rebuild the text |
| PollyApi.CollectPdfText | polly/api.py:79-82 | the page loop and the join give the pages' texts joined by newlines |
| PollyApi.JoinLines | polly/api.py:82 | the join loop gives `"\n".join(buf)` |
| PollyApi.ReadUpload | polly/api.py:74-84 | a PDF name (case-insensitive, "upload" when unnamed) gives the joined pages; any other file its decoded text |
| PollyApi.PollySynthesize | polly/api.py:60-148 | the handler gives the specified response and calls |
| PollyApi.Speak | polly/api.py:89-148 | voice selection, engine resolution and stream give the specified response |
| PollyApi.PollyEmptyTextRejected | polly/api.py:74-87 | an upload always replaces the form text; the answer is 400 exactly when the text is empty or all whitespace, and then no remote call is made |
| PollyApi.PollyIgnoresStyle | polly/api.py:114-118 | the style field changes nothing |
| PollyApi.PollyStreamsPlainText | polly/api.py:89-148 | a streamed response has only the attachment header; the voice language is `accent or language_code`; the engine is resolved from the global listing; the requests rebuild the text as plain text |

## Left out

- Client construction, credentials, region and `.env` handling (backend/polly_tts.py:14-29): these are library and environment calls.
- The network calls `describe_voices`, `synthesize_speech` and the Google Translate request are parameters of the model. backend/translate.py is not part of this model.
- The WAV header bytes written by Python's `wave` module and the `BytesIO` buffering. Only the channel count, sample width and frame rate chosen are modelled.
- PDF text extraction and UTF-8 decoding with `errors="ignore"`: an upload is given as its page texts and its decoded text.
- The FastAPI routing, CORS, `StreamingResponse` plumbing, logging with its 500-character previews, the HTML pages of polly/api.py, the `GET /voices` endpoints and uvicorn startup.
- Generator laziness: the format `ValueError` is raised only when the stream is first read. The model records it as the stream's outcome, next to the headers already chosen.
- AudioOutput.SynthesizeToFile: the file is opened before `synthesize` raises on a bad format, so an empty or header-only file remains on disk; the model records only the error.
- AudioOutput.WavFileIsWritten: assumes the WAV writer accepts the frame rate. Python's `wave` module rejects a frame rate of 0 or less in `setframerate` (backend/polly.py:150), so a negative `sample_rate` raises there before any request, while the model writes the file.
- Http.StreamCoversText: the same for the WAV branch of `iter_audio` (backend/api.py:131, polly/api.py:130): a negative `sample_rate` makes `setframerate` raise when the stream is first read, while the model reports the stream as synthesized.
- AudioOutput.PlanOutputKeepsRates: states the WAV rate is never 0 but does not model that the `wave` module also refuses a negative rate.
- The search loop `for v in voices` of `select_voice` and the generator loops of `iter_audio` are modelled as the functions `Voices.FirstWhere` and `Http.StreamFor`: the order of the search and of the requests is captured, the step-by-step evaluation is not.
- A `synthesize_speech` call that raises mid-stream is not modelled; speech is a total function.
- The voice catalog is treated as fixed during one request: the same `LanguageCode` gives the same listing.
- `main_cli`'s `--list-voices` printing and `--input-file` reading (including its own PDF loop), and argparse; `--style` is a three-value datatype because argparse restricts it.
- PyValues.Lower: models `str.lower()` on ASCII letters only; other characters are kept as they are.
- Chunker.ChunkText: requires a positive `max_len`, because the source never advances with 0 (only 2900 is used).
- Voices.ListVoices: requires the service to end the pagination (some response without a `NextToken`), because the source loops forever otherwise.
- `X-Voice-Id` is `voice_id or ""`; the resolved id is always a string, so the model uses it as it is.
