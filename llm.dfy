/** The language-model interface (core/models/providers.py, core/llm.py) and
    the part of `translate` both providers share: one task per target
    language, gathered in request order. */
module Llm {
  import opened Common

  /** core/models/translation.py */
  datatype TranslationRequest = TranslationRequest(text: string, sourceLang: string, targetLang: seq<string>)
  datatype TranslationResponse = TranslationResponse(originalText: string, translatedText: seq<string>)

  /** A provider as the event handlers see it: `detect_language` and
      `translate`, each of which may raise. */
  datatype LanguageModel = LanguageModel(
    detectLanguage: string -> Result<string>,
    translate: TranslationRequest -> Result<TranslationResponse>)

  /** The two prompt constants of llm/prompts/translation.py; their text is
      not part of this model. */
  datatype Instructions = DetectLanguagePrompt | TranslatePrompt

  /** The line both providers append after the translation prompt:
      a newline, 24 spaces of source indentation, then the language pair. */
  function TranslateLine(sourceLang: string, targetLang: string): (line: string) {
    TranslateLead + sourceLang + " to " + targetLang + ":"
  }

  /** The language-pair line names the source language right after its fixed
      lead and ends with the target language and a colon. */
  lemma TranslateLineLayout(sourceLang: string, targetLang: string)
    ensures var line := TranslateLine(sourceLang, targetLang);
      && |line| == |TranslateLead| + |sourceLang| + 4 + |targetLang| + 1
      && line[..|TranslateLead|] == TranslateLead
      && line[|TranslateLead|..|TranslateLead| + |sourceLang|] == sourceLang
      && line[|line| - |targetLang| - 1..] == targetLang + ":"
  {
  }

  /** The start of that line, up to the source language. */
  const TranslateLead := "\n" + "                        " + "Translate the following text from "

  /** `asyncio.gather` over one task per target language, run as a sequential
      map: the results come back in the order of the targets, and the first
      task that raises makes the whole call raise. */
  function Gather(targets: seq<string>, one: string -> Result<string>): (r: Result<seq<string>>)
    ensures r.Success? <==> forall i :: 0 <= i < |targets| ==> one(targets[i]).Success?
    ensures r.Success? ==> |r.value| == |targets|
    ensures r.Success? ==> forall i :: 0 <= i < |targets| ==> one(targets[i]) == Success(r.value[i])
    ensures r.Failure? ==> exists i :: 0 <= i < |targets| && one(targets[i]) == Failure(r.error)
  {
    if targets == [] then Success([])
    else
      match one(targets[0])
      case Failure(e) => Failure(e)
      case Success(t) =>
        match Gather(targets[1..], one)
        case Failure(e) =>
          assert exists i :: 0 <= i < |targets| - 1 && one(targets[1..][i]) == Failure(e);
          Failure(e)
        case Success(ts) => Success([t] + ts)
  }

  /** The invariant the providers establish: a successful translation holds
      exactly one text per requested target language. */
  ghost predicate OnePerTarget(llm: LanguageModel) {
    forall request :: llm.translate(request).Success? ==>
      |llm.translate(request).value.translatedText| == |request.targetLang|
  }
}
