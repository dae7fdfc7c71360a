/** What the two `/synthesize` HTTP handlers (backend/api.py and polly/api.py)
    share: the uploaded file and the text read from it, the remote calls a
    request makes, the response, and the streamed audio. */
module Http {
  import opened PyValues
  import opened Synthesis
  import opened AudioOutput

  /** An uploaded file: its name, the text extracted from each PDF page (a page
      may yield none), and the file decoded as UTF-8. Extraction and decoding
      happen outside the model; only the one the handler uses matters. */
  datatype Upload = Upload(filename: Option<string>, pdfPages: seq<Option<string>>, decoded: string)

  /** `(file.filename or "upload").lower().endswith(".pdf")`. */
  predicate IsPdf(u: Upload) {
    var name := Lower(if Truthy(u.filename) then u.filename.value else "upload");
    |name| >= 4 && name[|name| - 4..] == ".pdf"
  }

  /** `[(p.extract_text() or "") for p in reader.pages]`. */
  function PageTexts(pages: seq<Option<string>>): (ts: seq<string>)
    ensures |ts| == |pages| && forall i :: 0 <= i < |pages| ==> ts[i] == OrEmpty(pages[i])
  {
    seq(|pages|, i requires 0 <= i < |pages| => OrEmpty(pages[i]))
  }

  /** The text an upload yields: its pages joined by newlines for a PDF, the
      decoded bytes otherwise. */
  function UploadText(u: Upload): string {
    if IsPdf(u) then Join("\n", PageTexts(u.pdfPages)) else u.decoded
  }

  /** Python's `s.split(sep)` for a one-character separator. */
  function SplitOn(sep: char, s: string): (parts: seq<string>)
    ensures |parts| >= 1
    decreases |s|
  {
    var k := IndexOf(sep, s);
    if k == |s| then [s] else [s[..k]] + SplitOn(sep, s[k + 1..])
  }

  /** The first position of `c` in `s`, or `|s|`. */
  function IndexOf(c: char, s: string): (k: nat)
    ensures k <= |s|
    ensures k < |s| ==> s[k] == c
    ensures forall j :: 0 <= j < k ==> s[j] != c
  {
    if s == [] then 0 else if s[0] == c then 0 else IndexOf(c, s[1..]) + 1
  }

  lemma IndexOfPrefix(c: char, a: string, b: string)
    requires forall j :: 0 <= j < |a| ==> a[j] != c
    ensures IndexOf(c, a + [c] + b) == |a|
  {
    assert (a + [c] + b)[|a|] == c;
  }

  lemma IndexOfNone(c: char, a: string)
    requires forall j :: 0 <= j < |a| ==> a[j] != c
    ensures IndexOf(c, a) == |a|
  {
  }

  /** Joining page texts that hold no newline loses nothing: splitting the
      result at newlines gives the pages back. */
  lemma {:induction false} JoinSplitRoundTrip(ss: seq<string>)
    requires ss != []
    requires forall i, j :: 0 <= i < |ss| && 0 <= j < |ss[i]| ==> ss[i][j] != '\n'
    ensures SplitOn('\n', Join("\n", ss)) == ss
  {
    if |ss| == 1 {
      IndexOfNone('\n', ss[0]);
    } else {
      var rest := Join("\n", ss[1..]);
      var s := Join("\n", ss);
      assert s == ss[0] + "\n" + rest;
      IndexOfPrefix('\n', ss[0], rest);
      assert s[..|ss[0]|] == ss[0];
      assert s[|ss[0]| + 1..] == rest;
      JoinSplitRoundTrip(ss[1..]);
      assert ss == [ss[0]] + ss[1..];
    }
  }

  /** The JSON body of the empty-text response. */
  const NoTextError: string := "No text provided."

  /** `not text or not text.strip()`. */
  predicate NoText(text: Option<string>) {
    !Truthy(text) || Blank(text.value)
  }

  lemma NoTextIffBlank(text: Option<string>)
    ensures NoText(text) <==> forall i :: 0 <= i < |OrEmpty(text)| ==> IsSpace(OrEmpty(text)[i])
  {
    BlankIffAllSpace(OrEmpty(text));
  }

  /** A remote call the handler makes before streaming: a translation, or one
      `list_voices` listing, however many `describe_voices` pages it reads. */
  datatype Call =
    | TranslateCall(text: string, source: string, target: string)
    | ListVoicesCall(languageCode: Option<string>)

  /** The listings `select_voice` made, as calls. */
  function LookupCalls(lookups: seq<Option<string>>): (calls: seq<Call>)
    ensures |calls| == |lookups| && forall i :: 0 <= i < |lookups| ==> calls[i] == ListVoicesCall(lookups[i])
  {
    seq(|lookups|, i requires 0 <= i < |lookups| => ListVoicesCall(lookups[i]))
  }

  /** The response headers the handlers set. */
  datatype Header = ContentDisposition | SrcLang | DstLang | Translated | VoiceIdHeader

  /** `f"attachment; filename=polly_output.{format}"`. */
  function Disposition(format: string): string {
    "attachment; filename=polly_output." + format
  }

  /** What the streamed body carries: the WAV settings when the audio is wrapped
      in a WAV container, and the outcome of `synthesize` (its requests and
      audio, or the format error raised when the stream is first read). */
  datatype Stream = Stream(wav: Option<WavParams>, body: Synthesis)

  /** A handler's response: a JSON error with its status, an unhandled error
      (the framework answers 500), or the streamed audio. */
  datatype Response =
    | JsonError(status: int, error: string)
    | ServerError
    | Streaming(mediaType: string, headers: map<Header, string>, stream: Stream)

  /** A handler run: its response and the remote calls it made, in order. */
  datatype HandlerRun = HandlerRun(response: Response, calls: seq<Call>)

  /** `iter_audio`: PCM at `sample_rate or 16000` in a mono 16-bit WAV container
      for "wav", otherwise the format and sample rate as given. */
  function StreamFor(text: string, voiceId: string, format: string, engine: Option<string>,
                     languageCode: Option<string>, sampleRate: Option<int>,
                     speech: SpeechRequest -> seq<byte>): Stream
  {
    var plan := PlanOutput(format, sampleRate);
    Stream(plan.wav, SynthesisFor(text, voiceId, plan.requestFormat, engine, languageCode, plan.sampleRate, "text", speech))
  }

  /** The stream always sends the whole text as plain-text requests with the
      planned parameters, unless the planned format is rejected; a WAV stream
      is never rejected. */
  lemma StreamCoversText(text: string, voiceId: string, format: string, engine: Option<string>,
                         languageCode: Option<string>, sampleRate: Option<int>, speech: SpeechRequest -> seq<byte>)
    ensures var st := StreamFor(text, voiceId, format, engine, languageCode, sampleRate, speech);
            var plan := PlanOutput(format, sampleRate);
            (st.body.Synthesized? <==> SupportedFormat(plan.requestFormat)) &&
            (format == "wav" ==> st.body.Synthesized? && st.wav == Some(WavParams(1, 2, WavRate(sampleRate)))) &&
            (st.body.Synthesized? ==>
               Concat(RequestTexts(st.body.requests)) == text &&
               forall i :: 0 <= i < |st.body.requests| ==>
                 ParamsSpec(st.body.requests[i].params, plan.requestFormat, voiceId, engine, languageCode,
                            plan.sampleRate, "text"))
  {
    var plan := PlanOutput(format, sampleRate);
    SynthesisRequests(text, voiceId, plan.requestFormat, engine, languageCode, plan.sampleRate, "text", speech);
  }
}
