/** The synthesis driver `PollyTTS.synthesize`: it checks the output format,
    builds the request parameters once, and sends one `synthesize_speech`
    request per chunk of the text, in chunk order. The remote call is given as
    the function `speech` from a request to the audio bytes it returns. */
module Synthesis {
  import opened PyValues
  import opened Chunker

  /** The error raised for any other output format. */
  const FormatMessage: string := "output_format must be 'mp3', 'ogg_vorbis', or 'pcm'"

  /** The formats `synthesize` accepts. */
  predicate SupportedFormat(format: string) {
    format == "mp3" || format == "ogg_vorbis" || format == "pcm"
  }

  /** The parameter names `synthesize` may send besides `Text`. */
  datatype Param = OutputFormat | VoiceId | Engine | LanguageCode | SampleRate | TextType

  /** The keyword each parameter is sent under. */
  function ParamName(k: Param): string {
    match k
    case OutputFormat => "OutputFormat"
    case VoiceId => "VoiceId"
    case Engine => "Engine"
    case LanguageCode => "LanguageCode"
    case SampleRate => "SampleRate"
    case TextType => "TextType"
  }

  /** The request parameters, key by key: the format and voice always, `Engine`
      and `LanguageCode` only when truthy, `SampleRate` as a decimal string only
      when given, `TextType` only when it is "text" or "ssml". */
  predicate ParamsSpec(p: map<Param, string>, format: string, voiceId: string, engine: Option<string>,
                       languageCode: Option<string>, sampleRate: Option<int>, textType: string) {
    OutputFormat in p && p[OutputFormat] == format &&
    VoiceId in p && p[VoiceId] == voiceId &&
    (Engine in p <==> Truthy(engine)) &&
    (Engine in p ==> p[Engine] == engine.value) &&
    (LanguageCode in p <==> Truthy(languageCode)) &&
    (LanguageCode in p ==> p[LanguageCode] == languageCode.value) &&
    (SampleRate in p <==> sampleRate.Some?) &&
    (SampleRate in p ==> p[SampleRate] == DecimalString(sampleRate.value)) &&
    (TextType in p <==> textType == "text" || textType == "ssml") &&
    (TextType in p ==> p[TextType] == textType)
  }

  /** The `params` dictionary `synthesize` sends with every chunk. */
  function RequestParams(format: string, voiceId: string, engine: Option<string>,
                         languageCode: Option<string>, sampleRate: Option<int>, textType: string): (p: map<Param, string>)
    ensures ParamsSpec(p, format, voiceId, engine, languageCode, sampleRate, textType)
  {
    var base := map[OutputFormat := format, VoiceId := voiceId];
    var withEngine := if Truthy(engine) then base[Engine := engine.value] else base;
    var withLanguage := if Truthy(languageCode) then withEngine[LanguageCode := languageCode.value] else withEngine;
    var withRate := if sampleRate.Some? then withLanguage[SampleRate := DecimalString(sampleRate.value)] else withLanguage;
    if textType == "text" || textType == "ssml" then withRate[TextType := textType] else withRate
  }

  /** The key-by-key description leaves no freedom: it fixes the whole map. */
  lemma ParamsSpecDetermines(p: map<Param, string>, q: map<Param, string>, format: string, voiceId: string,
                             engine: Option<string>, languageCode: Option<string>, sampleRate: Option<int>, textType: string)
    requires ParamsSpec(p, format, voiceId, engine, languageCode, sampleRate, textType)
    requires ParamsSpec(q, format, voiceId, engine, languageCode, sampleRate, textType)
    ensures p == q
  {
    forall k: Param ensures (k in p <==> k in q) && (k in p ==> p[k] == q[k]) {
      match k
      case OutputFormat =>
      case VoiceId =>
      case Engine =>
      case LanguageCode =>
      case SampleRate =>
      case TextType =>
    }
    assert p.Keys == q.Keys;
  }

  /** The `SampleRate` string is read back by the service as the number given. */
  lemma SampleRateReadsBack(p: map<Param, string>, format: string, voiceId: string, engine: Option<string>,
                            languageCode: Option<string>, sampleRate: Option<int>, textType: string)
    requires ParamsSpec(p, format, voiceId, engine, languageCode, sampleRate, textType)
    requires sampleRate.Some?
    ensures SampleRate in p && ParseDecimal(p[SampleRate]) == sampleRate
  {
    DecimalStringRoundTrip(sampleRate.value);
  }

  /** The dictionary built by conditional insertion, as `synthesize` does. */
  method BuildParams(format: string, voiceId: string, engine: Option<string>,
                     languageCode: Option<string>, sampleRate: Option<int>, textType: string)
    returns (params: map<Param, string>)
    ensures params == RequestParams(format, voiceId, engine, languageCode, sampleRate, textType)
  {
    params := map[OutputFormat := format, VoiceId := voiceId];
    if Truthy(engine) {
      params := params[Engine := engine.value];
    }
    if Truthy(languageCode) {
      params := params[LanguageCode := languageCode.value];
    }
    if sampleRate.Some? {
      params := params[SampleRate := DecimalString(sampleRate.value)];
    }
    if textType == "text" || textType == "ssml" {
      params := params[TextType := textType];
    }
  }

  /** One `synthesize_speech(Text=text, **params)` call. */
  datatype SpeechRequest = SpeechRequest(text: string, params: map<Param, string>)

  /** The outcome of `synthesize`: the requests made with the audio each one
      returned, or the format error raised before any request. */
  datatype Synthesis =
    | Synthesized(requests: seq<SpeechRequest>, audio: seq<seq<byte>>)
    | FormatRejected(message: string)

  function RequestTexts(rs: seq<SpeechRequest>): (ts: seq<string>)
    ensures |ts| == |rs| && forall i :: 0 <= i < |rs| ==> ts[i] == rs[i].text
  {
    seq(|rs|, i requires 0 <= i < |rs| => rs[i].text)
  }

  /** One request per chunk, in chunk order, all with the same parameters. */
  function RequestsFor(chunks: seq<string>, p: map<Param, string>): (rs: seq<SpeechRequest>)
    ensures |rs| == |chunks| && forall i :: 0 <= i < |chunks| ==> rs[i] == SpeechRequest(chunks[i], p)
  {
    seq(|chunks|, i requires 0 <= i < |chunks| => SpeechRequest(chunks[i], p))
  }

  /** The audio each request returns, in request order. */
  function AudioFor(rs: seq<SpeechRequest>, speech: SpeechRequest -> seq<byte>): (audio: seq<seq<byte>>)
    ensures |audio| == |rs| && forall i :: 0 <= i < |rs| ==> audio[i] == speech(rs[i])
  {
    seq(|rs|, i requires 0 <= i < |rs| => speech(rs[i]))
  }

  /** What `synthesize` does with its arguments. */
  function SynthesisFor(text: string, voiceId: string, format: string, engine: Option<string>,
                        languageCode: Option<string>, sampleRate: Option<int>, textType: string,
                        speech: SpeechRequest -> seq<byte>): Synthesis
  {
    if !SupportedFormat(format) then FormatRejected(FormatMessage)
    else
      var p := RequestParams(format, voiceId, engine, languageCode, sampleRate, textType);
      var rs := RequestsFor(Chunks(text, DefaultMaxLength), p);
      Synthesized(rs, AudioFor(rs, speech))
  }

  /** The loop `for chunk in chunks: resp = synthesize_speech(Text=chunk, **params)`,
      collecting each response's audio. */
  method SendChunks(chunks: seq<string>, params: map<Param, string>, speech: SpeechRequest -> seq<byte>)
    returns (requests: seq<SpeechRequest>, audio: seq<seq<byte>>)
    ensures requests == RequestsFor(chunks, params)
    ensures audio == AudioFor(requests, speech)
  {
    requests, audio := [], [];
    var i := 0;
    while i < |chunks|
      invariant i <= |chunks|
      invariant |requests| == i && |audio| == i
      invariant forall j :: 0 <= j < i ==> requests[j] == SpeechRequest(chunks[j], params)
      invariant forall j :: 0 <= j < i ==> audio[j] == speech(requests[j])
    {
      var request := SpeechRequest(chunks[i], params);
      requests := requests + [request];
      audio := audio + [speech(request)];
      i := i + 1;
    }
  }

  /** `synthesize`: format check, parameters, then the per-chunk requests. */
  method Synthesize(text: string, voiceId: string, format: string, engine: Option<string>,
                    languageCode: Option<string>, sampleRate: Option<int>, textType: string,
                    speech: SpeechRequest -> seq<byte>)
    returns (out: Synthesis)
    ensures out == SynthesisFor(text, voiceId, format, engine, languageCode, sampleRate, textType, speech)
  {
    if !SupportedFormat(format) {
      return FormatRejected(FormatMessage);
    }
    var params := BuildParams(format, voiceId, engine, languageCode, sampleRate, textType);
    var chunks := ChunkText(text, DefaultMaxLength);
    var requests, audio := SendChunks(chunks, params, speech);
    out := Synthesized(requests, audio);
  }

  /** A rejected format makes no request; an accepted one sends the chunks of
      the text in order, each with the same parameters, and the texts sent
      rebuild the input exactly, each within the length limit. */
  lemma SynthesisRequests(text: string, voiceId: string, format: string, engine: Option<string>,
                          languageCode: Option<string>, sampleRate: Option<int>, textType: string,
                          speech: SpeechRequest -> seq<byte>)
    ensures var s := SynthesisFor(text, voiceId, format, engine, languageCode, sampleRate, textType, speech);
            (s.FormatRejected? <==> !SupportedFormat(format)) &&
            (s.FormatRejected? ==> s.message == FormatMessage) &&
            (s.Synthesized? ==>
               RequestTexts(s.requests) == Chunks(text, DefaultMaxLength) &&
               Concat(RequestTexts(s.requests)) == text &&
               |s.audio| == |s.requests| &&
               forall i :: 0 <= i < |s.requests| ==>
                 |s.requests[i].text| <= DefaultMaxLength &&
                 ParamsSpec(s.requests[i].params, format, voiceId, engine, languageCode, sampleRate, textType) &&
                 s.audio[i] == speech(s.requests[i]))
  {
    var s := SynthesisFor(text, voiceId, format, engine, languageCode, sampleRate, textType, speech);
    if s.Synthesized? {
      var cs := Chunks(text, DefaultMaxLength);
      assert RequestTexts(s.requests) == cs;
      ChunksRoundTrip(text, DefaultMaxLength);
      ChunksBounded(text, DefaultMaxLength);
    }
  }
}
