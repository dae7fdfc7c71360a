/** What the callers of `synthesize` decide about the audio they produce: the
    WAV plan (synthesize PCM at `sample_rate or 16000`, then wrap it as mono
    16-bit WAV), the format-to-media-type table of the HTTP handlers, and the
    file writer `PollyTTS.synthesize_to_file`. */
module AudioOutput {
  import opened PyValues
  import opened Chunker
  import opened Synthesis

  /** The sample rate used for WAV output when none (or 0) is given. */
  const DefaultWavRate: int := 16000

  /** The settings given to the WAV writer: channels, bytes per sample, frame rate. */
  datatype WavParams = WavParams(channels: nat, sampleWidth: nat, frameRate: int)

  /** What a caller asks of `synthesize` for a requested output format, and the
      WAV container it wraps the result in, if any. */
  datatype OutputPlan = OutputPlan(requestFormat: string, sampleRate: Option<int>, wav: Option<WavParams>)

  /** `sample_rate or 16000`. */
  function WavRate(sampleRate: Option<int>): (r: int)
    ensures r != 0
    ensures sampleRate.Some? && sampleRate.value != 0 ==> r == sampleRate.value
    ensures sampleRate.None? || sampleRate.value == 0 ==> r == DefaultWavRate
  {
    if sampleRate.Some? && sampleRate.value != 0 then sampleRate.value else DefaultWavRate
  }

  /** The WAV branch and the pass-through branch shared by `synthesize_to_file`
      and both HTTP handlers. */
  function PlanOutput(format: string, sampleRate: Option<int>): OutputPlan {
    if format == "wav" then
      var rate := WavRate(sampleRate);
      OutputPlan("pcm", Some(rate), Some(WavParams(1, 2, rate)))
    else OutputPlan(format, sampleRate, None)
  }

  /** WAV is synthesized as PCM, mono 16-bit, and the header's frame rate is the
      rate the audio is requested at; any other format is requested as asked,
      with the sample rate unchanged and no container. */
  lemma PlanOutputKeepsRates(format: string, sampleRate: Option<int>)
    ensures var plan := PlanOutput(format, sampleRate);
            (plan.wav.Some? <==> format == "wav") &&
            (plan.wav.Some? ==>
               plan.requestFormat == "pcm" && SupportedFormat(plan.requestFormat) &&
               plan.wav.value.channels == 1 && plan.wav.value.sampleWidth == 2 &&
               plan.sampleRate == Some(plan.wav.value.frameRate) && plan.wav.value.frameRate != 0) &&
            (plan.wav.None? ==> plan.requestFormat == format && plan.sampleRate == sampleRate) &&
            plan.requestFormat != "wav"
  {
  }

  /** The handlers' media-type table, falling back to `application/octet-stream`. */
  function MediaType(format: string): (m: string)
    ensures m == "application/octet-stream" <==>
              !(format == "mp3" || format == "ogg_vorbis" || format == "pcm" || format == "wav")
  {
    if format == "mp3" then "audio/mpeg"
    else if format == "ogg_vorbis" then "audio/ogg"
    else if format == "pcm" then "audio/L16"
    else if format == "wav" then "audio/wav"
    else "application/octet-stream"
  }

  /** A format gets a real media type exactly when the planned request is one
      `synthesize` accepts: the fallback type always comes with a stream that
      fails on the format check. */
  lemma MediaTypeKnownIffAccepted(format: string, sampleRate: Option<int>)
    ensures SupportedFormat(PlanOutput(format, sampleRate).requestFormat) <==>
              MediaType(format) != "application/octet-stream"
  {
  }

  /** The loop `for audio_bytes in ...: f.write(audio_bytes)` (or
      `wf.writeframes(audio_bytes)`): the pieces are written one after another. */
  method WriteFrames(pieces: seq<seq<byte>>) returns (written: seq<byte>)
    ensures written == Concat(pieces)
  {
    written := [];
    var i := 0;
    while i < |pieces|
      invariant i <= |pieces|
      invariant written == Concat(pieces[..i])
    {
      assert pieces[..i + 1] == pieces[..i] + [pieces[i]];
      ConcatAppend(pieces[..i], pieces[i]);
      written := written + pieces[i];
      i := i + 1;
    }
    assert pieces[..i] == pieces;
  }

  /** The outcome of `synthesize_to_file`: the file written (its path, the WAV
      settings when it is a WAV file, the requests made and the audio bytes
      written, header excluded), or the format error. */
  datatype FileOutput =
    | Written(path: string, wav: Option<WavParams>, requests: seq<SpeechRequest>, frames: seq<byte>)
    | Raised(message: string)

  /** What `synthesize_to_file` produces, in terms of the plan and of `synthesize`. */
  function FileOutputFor(text: string, outputPath: string, voiceId: string, format: string, engine: Option<string>,
                         languageCode: Option<string>, sampleRate: Option<int>, textType: string,
                         speech: SpeechRequest -> seq<byte>): FileOutput
  {
    var plan := PlanOutput(format, sampleRate);
    match SynthesisFor(text, voiceId, plan.requestFormat, engine, languageCode, plan.sampleRate, textType, speech)
    case FormatRejected(message) => Raised(message)
    case Synthesized(requests, audio) => Written(outputPath, plan.wav, requests, Concat(audio))
  }

  /** `synthesize_to_file`. */
  method SynthesizeToFile(text: string, outputPath: string, voiceId: string, format: string, engine: Option<string>,
                          languageCode: Option<string>, sampleRate: Option<int>, textType: string,
                          speech: SpeechRequest -> seq<byte>)
    returns (out: FileOutput)
    ensures out == FileOutputFor(text, outputPath, voiceId, format, engine, languageCode, sampleRate, textType, speech)
  {
    var synthesis: Synthesis;
    var wav: Option<WavParams> := None;
    if format == "wav" {
      var actualSampleRate := if sampleRate.Some? && sampleRate.value != 0 then sampleRate.value else DefaultWavRate;
      wav := Some(WavParams(1, 2, actualSampleRate));
      synthesis := Synthesize(text, voiceId, "pcm", engine, languageCode, Some(actualSampleRate), textType, speech);
    } else {
      synthesis := Synthesize(text, voiceId, format, engine, languageCode, sampleRate, textType, speech);
    }
    if synthesis.FormatRejected? {
      return Raised(synthesis.message);
    }
    var frames := WriteFrames(synthesis.audio);
    out := Written(outputPath, wav, synthesis.requests, frames);
  }

  /** The file is written exactly when the planned format is accepted; its
      requests then carry the whole text, in order, with the planned parameters. */
  lemma FileRequestsCoverText(text: string, outputPath: string, voiceId: string, format: string, engine: Option<string>,
                              languageCode: Option<string>, sampleRate: Option<int>, textType: string,
                              speech: SpeechRequest -> seq<byte>)
    ensures var out := FileOutputFor(text, outputPath, voiceId, format, engine, languageCode, sampleRate, textType, speech);
            var plan := PlanOutput(format, sampleRate);
            (out.Written? <==> SupportedFormat(plan.requestFormat)) &&
            (out.Written? ==>
               Concat(RequestTexts(out.requests)) == text &&
               forall i :: 0 <= i < |out.requests| ==>
                 ParamsSpec(out.requests[i].params, plan.requestFormat, voiceId, engine, languageCode, plan.sampleRate, textType))
  {
    var plan := PlanOutput(format, sampleRate);
    SynthesisRequests(text, voiceId, plan.requestFormat, engine, languageCode, plan.sampleRate, textType, speech);
  }

  /** A WAV file always gets its audio: its PCM request is never rejected, and
      what is written is the audio of the chunks in order. */
  lemma WavFileIsWritten(text: string, outputPath: string, voiceId: string, engine: Option<string>,
                         languageCode: Option<string>, sampleRate: Option<int>, textType: string,
                         speech: SpeechRequest -> seq<byte>)
    ensures var out := FileOutputFor(text, outputPath, voiceId, "wav", engine, languageCode, sampleRate, textType, speech);
            out.Written? && out.wav == Some(WavParams(1, 2, WavRate(sampleRate))) &&
            RequestTexts(out.requests) == Chunks(text, DefaultMaxLength) &&
            forall i :: 0 <= i < |out.requests| ==>
              ParamsSpec(out.requests[i].params, "pcm", voiceId, engine, languageCode, Some(WavRate(sampleRate)), textType)
  {
    var plan := PlanOutput("wav", sampleRate);
    SynthesisRequests(text, voiceId, plan.requestFormat, engine, languageCode, plan.sampleRate, textType, speech);
  }
}
