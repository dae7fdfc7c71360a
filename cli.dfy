/** The command-line entry point `main_cli` of backend/polly.py, after argument
    parsing: the empty-text check, voice resolution, the optional SSML style
    wrapping, and the call to `synthesize_to_file`. */
module Cli {
  import opened PyValues
  import opened Voices
  import opened Chunker
  import opened Synthesis
  import opened AudioOutput

  /** The values `--style` accepts. */
  datatype Style = Conversational | Newscaster | Narration

  /** The `amazon:domain` name each style maps to. */
  function Domain(style: Style): string {
    match style
    case Conversational => "conversational"
    case Newscaster => "news"
    case Narration => "narration"
  }

  /** `args.accent or args.language_code or "en-US"`. */
  function SsmlLang(accent: Option<string>, languageCode: Option<string>): (lang: string)
    ensures lang != ""
    ensures Truthy(accent) ==> lang == accent.value
    ensures !Truthy(accent) && Truthy(languageCode) ==> lang == languageCode.value
    ensures !Truthy(accent) && !Truthy(languageCode) ==> lang == "en-US"
  {
    if Truthy(accent) then accent.value
    else if Truthy(languageCode) then languageCode.value
    else "en-US"
  }

  function SsmlOpen(lang: string, domain: string): string {
    "<speak><lang xml:lang=\"" + lang + "\"><amazon:domain name=\"" + domain + "\">"
  }

  const SsmlClose: string := "</amazon:domain></lang></speak>"

  /** The SSML document the text is wrapped in when a style is given. */
  function WrapSsml(text: string, lang: string, domain: string): string {
    SsmlOpen(lang, domain) + text + SsmlClose
  }

  /** Reading the text back out of a document wrapped for `lang` and `domain`. */
  function UnwrapSsml(doc: string, lang: string, domain: string): Option<string> {
    var open := SsmlOpen(lang, domain);
    if |open| + |SsmlClose| <= |doc| && doc[..|open|] == open && doc[|doc| - |SsmlClose|..] == SsmlClose
    then Some(doc[|open|..|doc| - |SsmlClose|])
    else None
  }

  /** The wrapping hides nothing: the text comes back out unchanged. */
  lemma WrapSsmlRoundTrip(text: string, lang: string, domain: string)
    ensures UnwrapSsml(WrapSsml(text, lang, domain), lang, domain) == Some(text)
  {
    var open := SsmlOpen(lang, domain);
    var doc := WrapSsml(text, lang, domain);
    assert doc == open + text + SsmlClose;
    assert doc[..|open|] == open;
    assert doc[|doc| - |SsmlClose|..] == SsmlClose;
    assert doc[|open|..|doc| - |SsmlClose|] == text;
  }

  /** The parsed command line, for a run given `--text` (or none). */
  datatype CliArgs = CliArgs(
    text: Option<string>, voice: Option<string>, gender: Option<string>, accent: Option<string>,
    format: string, engine: Option<string>, languageCode: Option<string>, style: Option<Style>,
    sampleRate: Option<int>, output: string)

  /** What a run ends with: the "No text provided." exit, a voice listing that
      raised (with the listings attempted), or the voice chosen, the listings
      made and the file written. */
  datatype CliOutcome =
    | Exit(message: string)
    | ListingRaised(lookups: seq<Option<string>>)
    | Done(voiceId: string, lookups: seq<Option<string>>, file: FileOutput)

  const NoTextMessage: string := "No text provided."

  /** The text handed to `synthesize_to_file`, and its text type. */
  function CliText(args: CliArgs): string {
    var text := OrEmpty(args.text);
    match args.style
    case None => text
    case Some(style) => WrapSsml(text, SsmlLang(args.accent, args.languageCode), Domain(style))
  }

  function CliTextType(args: CliArgs): string {
    if args.style.Some? then "ssml" else "text"
  }

  /** What `main_cli` does for `args`; `catalog` answers the voice listings and
      `speech` the synthesis requests. */
  function CliOutcomeFor(args: CliArgs, catalog: Option<string> -> Listing, speech: SpeechRequest -> seq<byte>): CliOutcome {
    if Blank(OrEmpty(args.text)) then Exit(NoTextMessage)
    else
      var lang := Or(args.accent, args.languageCode);
      var selection := SelectVoice(args.voice, args.gender, lang, catalog);
      match selection.voiceId
      case None => ListingRaised(selection.lookups)
      case Some(voiceId) => Done(voiceId, selection.lookups, CliFile(args, voiceId, speech))
  }

  /** `main_cli` from the text check on. */
  method MainCli(args: CliArgs, catalog: Option<string> -> Listing, speech: SpeechRequest -> seq<byte>)
    returns (out: CliOutcome)
    ensures out == CliOutcomeFor(args, catalog, speech)
  {
    var text := if Truthy(args.text) then args.text.value else "";
    if Strip(text) == "" {
      return Exit(NoTextMessage);
    }
    var lang := if Truthy(args.accent) then args.accent else args.languageCode;
    var selection := SelectVoice(args.voice, args.gender, lang, catalog);
    if selection.voiceId.None? {
      return ListingRaised(selection.lookups);
    }
    var voiceId := selection.voiceId.value;
    var textType := "text";
    if args.style.Some? {
      var domain := Domain(args.style.value);
      var ssmlLang := if Truthy(args.accent) then args.accent.value
                      else if Truthy(args.languageCode) then args.languageCode.value
                      else "en-US";
      text := WrapSsml(text, ssmlLang, domain);
      textType := "ssml";
    }
    var file := SynthesizeToFile(text, args.output, voiceId, args.format, args.engine, lang,
                                 args.sampleRate, textType, speech);
    out := Done(voiceId, selection.lookups, file);
  }

  /** Empty or whitespace-only text ends the run before any voice listing or
      synthesis; any other text gets past the check. */
  lemma BlankTextExitsFirst(args: CliArgs, catalog: Option<string> -> Listing, speech: SpeechRequest -> seq<byte>)
    ensures CliOutcomeFor(args, catalog, speech).Exit? <==>
              (forall i :: 0 <= i < |OrEmpty(args.text)| ==> IsSpace(OrEmpty(args.text)[i]))
  {
    BlankIffAllSpace(OrEmpty(args.text));
  }

  /** The file `main_cli` writes once `voiceId` is chosen. */
  function CliFile(args: CliArgs, voiceId: string, speech: SpeechRequest -> seq<byte>): FileOutput {
    FileOutputFor(CliText(args), args.output, voiceId, args.format, args.engine, Or(args.accent, args.languageCode),
                  args.sampleRate, CliTextType(args), speech)
  }

  /** With a style, every request is sent as SSML, and the requests' texts
      rebuild the wrapped document, from which the given text reads back. The
      formats the command line accepts are never rejected. */
  lemma StyledRunSendsSsml(args: CliArgs, voiceId: string, speech: SpeechRequest -> seq<byte>)
    requires args.style.Some?
    requires SupportedFormat(args.format) || args.format == "wav"
    ensures var file := CliFile(args, voiceId, speech);
            file.Written? &&
            UnwrapSsml(Concat(RequestTexts(file.requests)), SsmlLang(args.accent, args.languageCode),
                       Domain(args.style.value)) == Some(OrEmpty(args.text)) &&
            forall i :: 0 <= i < |file.requests| ==>
              TextType in file.requests[i].params && file.requests[i].params[TextType] == "ssml"
  {
    FileRequestsCoverText(CliText(args), args.output, voiceId, args.format, args.engine,
                          Or(args.accent, args.languageCode), args.sampleRate, "ssml", speech);
    WrapSsmlRoundTrip(OrEmpty(args.text), SsmlLang(args.accent, args.languageCode), Domain(args.style.value));
  }
}
