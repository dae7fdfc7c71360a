/** The `/synthesize` handler of polly/api.py: an upload always replaces the
    form text, empty text is rejected, the voice language is
    `accent or language_code`, the engine is resolved as in the other
    handler, the style is ignored and the text is always sent as plain text. */
module PollyApi {
  import opened PyValues
  import opened Voices
  import opened Synthesis
  import opened AudioOutput
  import opened Engines
  import opened Http

  /** The form fields and the optional upload. */
  datatype PollyForm = PollyForm(
    text: Option<string>, voice: Option<string>, gender: Option<string>, accent: Option<string>,
    format: string, engine: Option<string>, languageCode: Option<string>, sampleRate: Option<int>,
    style: Option<string>, file: Option<Upload>)

  /** An upload, when there is one, replaces the form's `text`. */
  function PollyText(form: PollyForm): Option<string> {
    if form.file.Some? then Some(UploadText(form.file.value)) else form.text
  }

  /** `accent or language_code`. */
  function PollyLanguage(form: PollyForm): Option<string> {
    Or(form.accent, form.languageCode)
  }

  /** What the handler does with a request; `catalog` and `speech` answer the
      remote calls. */
  function PollyRun(form: PollyForm, catalog: Option<string> -> Listing, speech: SpeechRequest -> seq<byte>): HandlerRun {
    var text := PollyText(form);
    if NoText(text) then HandlerRun(JsonError(400, NoTextError), [])
    else PollySpeak(form, text.value, catalog, speech)
  }

  /** Everything after the text check: voice selection (whose failure is not
      caught), the global listing for the engine, and the stream. */
  function PollySpeak(form: PollyForm, text: string, catalog: Option<string> -> Listing,
                      speech: SpeechRequest -> seq<byte>): HandlerRun
  {
    var lang := PollyLanguage(form);
    var selection := SelectVoice(form.voice, form.gender, lang, catalog);
    var selected := LookupCalls(selection.lookups);
    match selection.voiceId
    case None => HandlerRun(ServerError, selected)
    case Some(voiceId) =>
      var engine := EngineFor(voiceId, form.engine, catalog(None));
      HandlerRun(Streaming(MediaType(form.format), map[ContentDisposition := Disposition(form.format)],
                           StreamFor(text, voiceId, form.format, engine, lang, form.sampleRate, speech)),
                 selected + [ListVoicesCall(None)])
  }

  /** The loop `for page in reader.pages: buf.append(page.extract_text() or "")`
      followed by `"\n".join(buf)`. */
  method CollectPdfText(pages: seq<Option<string>>) returns (text: string)
    ensures text == Join("\n", PageTexts(pages))
  {
    var buf: seq<string> := [];
    var i := 0;
    while i < |pages|
      invariant i <= |pages|
      invariant buf == PageTexts(pages[..i])
    {
      buf := buf + [OrEmpty(pages[i])];
      i := i + 1;
    }
    assert pages[..i] == pages;
    text := JoinLines(buf);
  }

  /** `"\n".join(buf)`, one piece at a time. */
  method JoinLines(buf: seq<string>) returns (text: string)
    ensures text == Join("\n", buf)
  {
    if buf == [] {
      return "";
    }
    text := buf[0];
    var i := 1;
    while i < |buf|
      invariant 1 <= i <= |buf|
      invariant text == Join("\n", buf[..i])
    {
      assert buf[..i + 1] == buf[..i] + [buf[i]];
      JoinAppend("\n", buf[..i], buf[i]);
      text := text + "\n" + buf[i];
      i := i + 1;
    }
    assert buf[..i] == buf;
  }

  /** The upload's text, read as the handler reads it. */
  method ReadUpload(u: Upload) returns (text: string)
    ensures text == UploadText(u)
  {
    var filename := if Truthy(u.filename) then u.filename.value else "upload";
    var lowered := Lower(filename);
    if |lowered| >= 4 && lowered[|lowered| - 4..] == ".pdf" {
      text := CollectPdfText(u.pdfPages);
    } else {
      text := u.decoded;
    }
  }

  /** The handler, step by step as written. */
  method PollySynthesize(form: PollyForm, catalog: Option<string> -> Listing, speech: SpeechRequest -> seq<byte>)
    returns (run: HandlerRun)
    ensures run == PollyRun(form, catalog, speech)
  {
    var text := form.text;
    if form.file.Some? {
      var read := ReadUpload(form.file.value);
      text := Some(read);
    }
    if !Truthy(text) || Blank(text.value) {
      return HandlerRun(JsonError(400, NoTextError), []);
    }
    run := Speak(form, text.value, catalog, speech);
  }

  /** The handler from voice selection to the response. */
  method Speak(form: PollyForm, text: string, catalog: Option<string> -> Listing, speech: SpeechRequest -> seq<byte>)
    returns (run: HandlerRun)
    ensures run == PollySpeak(form, text, catalog, speech)
  {
    var lang := if Truthy(form.accent) then form.accent else form.languageCode;
    var selection := SelectVoice(form.voice, form.gender, lang, catalog);
    var made := LookupCalls(selection.lookups);
    if selection.voiceId.None? {
      return HandlerRun(ServerError, made);
    }
    var voiceId := selection.voiceId.value;
    var selectedEngine := ResolveEngine(voiceId, form.engine, catalog(None));
    var stream := StreamFor(text, voiceId, form.format, selectedEngine, lang, form.sampleRate, speech);
    run := HandlerRun(Streaming(MediaType(form.format), map[ContentDisposition := Disposition(form.format)], stream),
                      made + [ListVoicesCall(None)]);
  }

  /** An upload always replaces the form text: a PDF gives its pages joined by
      newlines, a page without text counting as empty, and pages without
      newlines can be told apart again. Empty or whitespace-only text is
      answered with 400 before any remote call; any other text gets past the
      check. */
  lemma PollyEmptyTextRejected(form: PollyForm, catalog: Option<string> -> Listing, speech: SpeechRequest -> seq<byte>)
    ensures form.file.Some? && IsPdf(form.file.value) ==>
              PollyText(form) == Some(Join("\n", PageTexts(form.file.value.pdfPages)))
    ensures form.file.Some? && !IsPdf(form.file.value) ==> PollyText(form) == Some(form.file.value.decoded)
    ensures form.file.None? ==> PollyText(form) == form.text
    ensures var run := PollyRun(form, catalog, speech);
            (run.response == JsonError(400, NoTextError) <==>
               forall i :: 0 <= i < |OrEmpty(PollyText(form))| ==> IsSpace(OrEmpty(PollyText(form))[i])) &&
            (run.response == JsonError(400, NoTextError) ==> run.calls == []) &&
            (run.response != JsonError(400, NoTextError) ==> !run.response.JsonError?)
  {
    NoTextIffBlank(PollyText(form));
  }

  /** The style field plays no part in what the handler does. */
  lemma PollyIgnoresStyle(form: PollyForm, catalog: Option<string> -> Listing, speech: SpeechRequest -> seq<byte>,
                          style: Option<string>)
    ensures PollyRun(form.(style := style), catalog, speech) == PollyRun(form, catalog, speech)
  {
    assert PollyText(form.(style := style)) == PollyText(form);
  }

  /** A streamed response has only the attachment header and the format's
      media type, and the global listing for the engine is the last call; the
      voice is chosen, and the audio requested, in the language
      `accent or language_code`, with the engine resolved for the chosen voice
      from the global catalog; the requests send the whole text, as plain
      text. */
  lemma PollyStreamsPlainText(form: PollyForm, text: string, catalog: Option<string> -> Listing,
                              speech: SpeechRequest -> seq<byte>)
    ensures var run := PollySpeak(form, text, catalog, speech);
            var lang := PollyLanguage(form);
            (run.response.Streaming? ==>
               run.response.headers == map[ContentDisposition := "attachment; filename=polly_output." + form.format] &&
               run.response.mediaType == MediaType(form.format) &&
               run.calls[|run.calls| - 1] == ListVoicesCall(None)) &&
            (!Truthy(form.voice) ==> run.calls[0] == ListVoicesCall(LanguageParam(lang))) &&
            (run.response.Streaming? && run.response.stream.body.Synthesized? ==>
               var voiceId := SelectVoice(form.voice, form.gender, lang, catalog).voiceId.value;
               var plan := PlanOutput(form.format, form.sampleRate);
               Concat(RequestTexts(run.response.stream.body.requests)) == text &&
               forall i :: 0 <= i < |run.response.stream.body.requests| ==>
                 ParamsSpec(run.response.stream.body.requests[i].params, plan.requestFormat, voiceId,
                            EngineFor(voiceId, form.engine, catalog(None)), lang, plan.sampleRate, "text"))
  {
    var lang := PollyLanguage(form);
    var selection := SelectVoice(form.voice, form.gender, lang, catalog);
    if selection.voiceId.Some? {
      var voiceId := selection.voiceId.value;
      StreamCoversText(text, voiceId, form.format, EngineFor(voiceId, form.engine, catalog(None)),
                       lang, form.sampleRate, speech);
    }
  }
}
