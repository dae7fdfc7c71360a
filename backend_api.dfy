/** The `/synthesize` handler of backend/api.py: text from the form or the
    upload, the empty-text check, the optional translation, the voice language
    `dst_lang or accent or language_code`, voice and engine resolution, and the
    streamed response with its metadata headers. */
module BackendApi {
  import opened PyValues
  import opened Voices
  import opened Synthesis
  import opened AudioOutput
  import opened Engines
  import opened Http

  /** The form fields and the optional upload. */
  datatype BackendForm = BackendForm(
    text: Option<string>, voice: Option<string>, gender: Option<string>, accent: Option<string>,
    format: string, engine: Option<string>, languageCode: Option<string>, sampleRate: Option<int>,
    style: Option<string>, file: Option<Upload>, srcLang: Option<string>, dstLang: Option<string>)

  /** The answer of `translate_text`: the translated text, or the error it raised. */
  datatype Translation = TranslatedText(text: string) | TranslationFailed(detail: string)

  /** The upload is read only when the form's `text` is empty or absent. */
  function BackendText(form: BackendForm): Option<string> {
    if form.file.Some? && !Truthy(form.text) then Some(UploadText(form.file.value)) else form.text
  }

  /** `src_lang and dst_lang and src_lang != dst_lang`. */
  predicate WantsTranslation(srcLang: Option<string>, dstLang: Option<string>) {
    Truthy(srcLang) && Truthy(dstLang) && srcLang.value != dstLang.value
  }

  /** `dst_lang or accent or language_code`. */
  function VoiceLanguage(form: BackendForm): Option<string> {
    Or(form.dstLang, Or(form.accent, form.languageCode))
  }

  function TranslationError(detail: string): string {
    "Translation failed: " + detail
  }

  /** The five metadata headers. */
  function BackendHeaders(format: string, srcLang: Option<string>, dstLang: Option<string>,
                          translated: bool, voiceId: string): map<Header, string>
  {
    map[ContentDisposition := Disposition(format), SrcLang := OrEmpty(srcLang), DstLang := OrEmpty(dstLang),
        Translated := if translated then "true" else "false", VoiceIdHeader := voiceId]
  }

  /** Everything after the text is settled: voice selection (whose failure is
      not caught), the global listing for the engine, and the stream. */
  function BackendSpeak(form: BackendForm, text: string, translated: bool, calls: seq<Call>,
                        catalog: Option<string> -> Listing, speech: SpeechRequest -> seq<byte>): HandlerRun
  {
    var lang := VoiceLanguage(form);
    var selection := SelectVoice(form.voice, form.gender, lang, catalog);
    var selected := calls + LookupCalls(selection.lookups);
    match selection.voiceId
    case None => HandlerRun(ServerError, selected)
    case Some(voiceId) =>
      var engine := EngineFor(voiceId, form.engine, catalog(None));
      HandlerRun(Streaming(MediaType(form.format),
                           BackendHeaders(form.format, form.srcLang, form.dstLang, translated, voiceId),
                           StreamFor(text, voiceId, form.format, engine, lang, form.sampleRate, speech)),
                 selected + [ListVoicesCall(None)])
  }

  /** How the handler's first steps end: with a response already (no text,
      or the translation failed), or with the text to speak, whether it was
      translated, and the calls made so far. */
  datatype Prelude =
    | Answered(run: HandlerRun)
    | Proceed(text: string, translated: bool, calls: seq<Call>)

  /** The text choice, the empty-text check and the optional translation. */
  function BackendPrelude(form: BackendForm, translate: (string, string, string) -> Translation): Prelude {
    var text := BackendText(form);
    if NoText(text) then Answered(HandlerRun(JsonError(400, NoTextError), []))
    else if WantsTranslation(form.srcLang, form.dstLang) then
      var call := TranslateCall(text.value, form.srcLang.value, form.dstLang.value);
      match translate(text.value, form.srcLang.value, form.dstLang.value)
      case TranslationFailed(detail) => Answered(HandlerRun(JsonError(500, TranslationError(detail)), [call]))
      case TranslatedText(t) => Proceed(t, true, [call])
    else Proceed(text.value, false, [])
  }

  /** What the handler does with a request; `translate`, `catalog` and `speech`
      answer the remote calls. */
  function BackendRun(form: BackendForm, translate: (string, string, string) -> Translation,
                      catalog: Option<string> -> Listing, speech: SpeechRequest -> seq<byte>): HandlerRun
  {
    match BackendPrelude(form, translate)
    case Answered(run) => run
    case Proceed(text, translated, calls) => BackendSpeak(form, text, translated, calls, catalog, speech)
  }

  /** The handler, step by step as written. */
  method BackendSynthesize(form: BackendForm, translate: (string, string, string) -> Translation,
                           catalog: Option<string> -> Listing, speech: SpeechRequest -> seq<byte>)
    returns (run: HandlerRun)
    ensures run == BackendRun(form, translate, catalog, speech)
  {
    var prelude := Prepare(form, translate);
    if prelude.Answered? {
      return prelude.run;
    }
    run := Speak(form, prelude.text, prelude.translated, prelude.calls, catalog, speech);
  }

  /** The handler up to voice selection: read the text, reject an empty one,
      translate when asked. */
  method Prepare(form: BackendForm, translate: (string, string, string) -> Translation)
    returns (prelude: Prelude)
    ensures prelude == BackendPrelude(form, translate)
  {
    var text := form.text;
    if form.file.Some? && !Truthy(text) {
      text := Some(UploadText(form.file.value));
    }
    if !Truthy(text) || Blank(text.value) {
      return Answered(HandlerRun(JsonError(400, NoTextError), []));
    }
    var spoken := text.value;
    if Truthy(form.srcLang) && Truthy(form.dstLang) && form.srcLang.value != form.dstLang.value {
      var call := TranslateCall(spoken, form.srcLang.value, form.dstLang.value);
      var answer := translate(spoken, form.srcLang.value, form.dstLang.value);
      if answer.TranslationFailed? {
        return Answered(HandlerRun(JsonError(500, "Translation failed: " + answer.detail), [call]));
      }
      return Proceed(answer.text, true, [call]);
    }
    return Proceed(spoken, false, []);
  }

  /** The handler from voice selection to the response. */
  method Speak(form: BackendForm, text: string, translated: bool, calls: seq<Call>,
               catalog: Option<string> -> Listing, speech: SpeechRequest -> seq<byte>)
    returns (run: HandlerRun)
    ensures run == BackendSpeak(form, text, translated, calls, catalog, speech)
  {
    var lang := if Truthy(form.dstLang) then form.dstLang
                else if Truthy(form.accent) then form.accent else form.languageCode;
    var selection := SelectVoice(form.voice, form.gender, lang, catalog);
    var made := calls + LookupCalls(selection.lookups);
    if selection.voiceId.None? {
      return HandlerRun(ServerError, made);
    }
    var voiceId := selection.voiceId.value;
    made := made + [ListVoicesCall(None)];
    var selectedEngine := ResolveEngine(voiceId, form.engine, catalog(None));
    var stream := StreamFor(text, voiceId, form.format, selectedEngine, lang, form.sampleRate, speech);
    var headers: map<Header, string> := map[];
    headers := headers[ContentDisposition := Disposition(form.format)];
    headers := headers[SrcLang := OrEmpty(form.srcLang)];
    headers := headers[DstLang := OrEmpty(form.dstLang)];
    headers := headers[Translated := if translated then "true" else "false"];
    headers := headers[VoiceIdHeader := voiceId];
    run := HandlerRun(Streaming(MediaType(form.format), headers, stream), made);
  }

  /** The upload is used only when the form's text is empty or absent, and
      empty or whitespace-only text is answered with 400 before any remote
      call; any other text gets past the check. */
  lemma BackendEmptyTextRejected(form: BackendForm, translate: (string, string, string) -> Translation,
                                 catalog: Option<string> -> Listing, speech: SpeechRequest -> seq<byte>)
    ensures Truthy(form.text) ==> BackendText(form) == form.text
    ensures form.file.Some? && !Truthy(form.text) ==> BackendText(form) == Some(UploadText(form.file.value))
    ensures var run := BackendRun(form, translate, catalog, speech);
            (run.response == JsonError(400, NoTextError) <==>
               forall i :: 0 <= i < |OrEmpty(BackendText(form))| ==> IsSpace(OrEmpty(BackendText(form))[i])) &&
            (run.response == JsonError(400, NoTextError) ==> run.calls == [])
  {
    NoTextIffBlank(BackendText(form));
    var prelude := BackendPrelude(form, translate);
    if prelude.Proceed? {
      SpeakCalls(form, prelude.text, prelude.translated, prelude.calls, catalog, speech);
    }
  }

  /** A text that gets past the check is translated exactly when both languages
      are given and differ: the translation request is then the only call made
      before voice selection, a failure is answered with 500 and the error's
      detail, and otherwise the translation is the text spoken. */
  lemma BackendTranslatesOnlyWhenAsked(form: BackendForm, translate: (string, string, string) -> Translation)
    requires !NoText(BackendText(form))
    ensures var prelude := BackendPrelude(form, translate);
            var text := BackendText(form).value;
            var wants := WantsTranslation(form.srcLang, form.dstLang);
            (prelude.Answered? <==> wants && translate(text, form.srcLang.value, form.dstLang.value).TranslationFailed?) &&
            (prelude.Answered? ==>
               prelude.run.response.status == 500 &&
               prelude.run.response.error == TranslationError(translate(text, form.srcLang.value, form.dstLang.value).detail)) &&
            (prelude.Answered? || prelude.translated == wants) &&
            (wants ==> prelude.Answered? || prelude.text == translate(text, form.srcLang.value, form.dstLang.value).text) &&
            (!wants ==> prelude.Proceed? && prelude.text == text) &&
            (wants ==> prelude.Answered? || prelude.calls == [TranslateCall(text, form.srcLang.value, form.dstLang.value)]) &&
            (wants ==> prelude.Proceed? || prelude.run.calls == [TranslateCall(text, form.srcLang.value, form.dstLang.value)]) &&
            (!wants ==> prelude.Answered? || prelude.calls == [])
  {
  }

  /** `X-Translated` is "true" exactly when the text was translated, and every
      call after the translation is a voice listing. */
  lemma BackendReportsTranslation(form: BackendForm, translate: (string, string, string) -> Translation,
                                  catalog: Option<string> -> Listing, speech: SpeechRequest -> seq<byte>)
    requires BackendPrelude(form, translate).Proceed?
    ensures var run := BackendRun(form, translate, catalog, speech);
            var wants := WantsTranslation(form.srcLang, form.dstLang);
            (run.response.Streaming? ==> run.response.headers[Translated] == (if wants then "true" else "false")) &&
            (wants <==> |run.calls| > 0 && run.calls[0].TranslateCall?) &&
            forall i :: 1 <= i < |run.calls| ==> run.calls[i].ListVoicesCall?
  {
    var prelude := BackendPrelude(form, translate);
    BackendTranslatesOnlyWhenAsked(form, translate);
    SpeakCalls(form, prelude.text, prelude.translated, prelude.calls, catalog, speech);
    var run := BackendRun(form, translate, catalog, speech);
    if |prelude.calls| == 0 && |run.calls| > 0 {
      assert run.calls[0].ListVoicesCall?;
    }
  }

  /** The calls after the text is settled extend the ones before, add only
      listings, and the response is never a JSON error. */
  lemma SpeakCalls(form: BackendForm, text: string, translated: bool, calls: seq<Call>,
                   catalog: Option<string> -> Listing, speech: SpeechRequest -> seq<byte>)
    ensures var run := BackendSpeak(form, text, translated, calls, catalog, speech);
            |run.calls| >= |calls| && run.calls[..|calls|] == calls &&
            (forall i :: |calls| <= i < |run.calls| ==> run.calls[i].ListVoicesCall?) &&
            !run.response.JsonError? &&
            (run.response.Streaming? ==> run.response.headers[Translated] == (if translated then "true" else "false"))
  {
    var selection := SelectVoice(form.voice, form.gender, VoiceLanguage(form), catalog);
    var selected := calls + LookupCalls(selection.lookups);
    assert selected[..|calls|] == calls;
    assert (selected + [ListVoicesCall(None)])[..|calls|] == calls;
  }

  /** A streamed response carries the five headers and no other: the
      attachment name from the format, the languages (empty when absent), the
      translation flag, and the chosen voice; its media type follows the
      format. */
  lemma BackendHeadersSet(form: BackendForm, text: string, translated: bool, calls: seq<Call>,
                          catalog: Option<string> -> Listing, speech: SpeechRequest -> seq<byte>)
    ensures var run := BackendSpeak(form, text, translated, calls, catalog, speech);
            var selection := SelectVoice(form.voice, form.gender, VoiceLanguage(form), catalog);
            (run.response.Streaming? <==> selection.voiceId.Some?) &&
            (run.response.Streaming? ==>
               var h := run.response.headers;
               h.Keys == {ContentDisposition, SrcLang, DstLang, Translated, VoiceIdHeader} &&
               h[ContentDisposition] == "attachment; filename=polly_output." + form.format &&
               h[SrcLang] == OrEmpty(form.srcLang) && h[DstLang] == OrEmpty(form.dstLang) &&
               h[VoiceIdHeader] == selection.voiceId.value &&
               run.response.mediaType == MediaType(form.format))
  {
  }

  /** The voice is chosen, and the audio requested, in the language
      `dst_lang or accent or language_code`; the engine is the one resolved
      for the chosen voice from the global catalog; and the requests carry the
      whole (possibly translated) text. */
  lemma BackendLanguageAndEngine(form: BackendForm, text: string, translated: bool, calls: seq<Call>,
                                 catalog: Option<string> -> Listing, speech: SpeechRequest -> seq<byte>)
    ensures var run := BackendSpeak(form, text, translated, calls, catalog, speech);
            var lang := VoiceLanguage(form);
            (!Truthy(form.voice) ==> run.calls[|calls|] == ListVoicesCall(LanguageParam(lang))) &&
            (run.response.Streaming? && run.response.stream.body.Synthesized? ==>
               var voiceId := SelectVoice(form.voice, form.gender, lang, catalog).voiceId.value;
               var plan := PlanOutput(form.format, form.sampleRate);
               run.calls[|run.calls| - 1] == ListVoicesCall(None) &&
               Concat(RequestTexts(run.response.stream.body.requests)) == text &&
               forall i :: 0 <= i < |run.response.stream.body.requests| ==>
                 ParamsSpec(run.response.stream.body.requests[i].params, plan.requestFormat, voiceId,
                            EngineFor(voiceId, form.engine, catalog(None)), lang, plan.sampleRate, "text"))
  {
    var lang := VoiceLanguage(form);
    var selection := SelectVoice(form.voice, form.gender, lang, catalog);
    if selection.voiceId.Some? {
      var voiceId := selection.voiceId.value;
      StreamCoversText(text, voiceId, form.format, EngineFor(voiceId, form.engine, catalog(None)), lang,
                       form.sampleRate, speech);
    }
  }
}
