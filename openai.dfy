/** llm/openai.py: the provider that calls the OpenAI Responses API. The call
    `client.responses.create(model=..., instructions=..., input=...)` is a
    parameter of the model. */
module OpenAI {
  import opened Common
  import opened Llm
  import Language
  import Text

  /** The fields `__init__` sets: the client, known by its API key, and the
      model name; they are never changed afterwards. */
  datatype OpenAILargeLanguageModel = OpenAILargeLanguageModel(apiKey: string, modelName: string)

  /** `responses.create` on the client with the given API key: the reply's
      `output_text`, or the exception the client raises. Arguments: API key,
      model, instructions, input. */
  type ResponsesCreate = (string, string, Instructions, string) -> Result<string>

  /** `__init__`: raises ValueError when the API key or the model name is None. */
  function New(apiKey: Option<string>, modelName: Option<string>): (r: Result<OpenAILargeLanguageModel>)
    ensures r.Success? <==> apiKey.Some? && modelName.Some?
    ensures r.Success? ==> r.value.apiKey == apiKey.value && r.value.modelName == modelName.value
    ensures apiKey.None? ==> r == Failure(ValueError("OpenAI API key is not set"))
    ensures apiKey.Some? && modelName.None? ==> r == Failure(ValueError("OpenAI model name is not set"))
  {
    if apiKey.None? then Failure(ValueError("OpenAI API key is not set"))
    else if modelName.None? then Failure(ValueError("OpenAI model name is not set"))
    else Success(OpenAILargeLanguageModel(apiKey.value, modelName.value))
  }

  /** `detect_language`: the model's output, stripped. */
  function DetectLanguage(m: OpenAILargeLanguageModel, create: ResponsesCreate, text: string): (r: Result<string>)
    ensures var reply := create(m.apiKey, m.modelName, DetectLanguagePrompt, text);
      && (r.Success? <==> reply.Success?)
      && (r.Success? ==> r.value == Text.Strip(reply.value) && Text.Trimmed(r.value))
      && (reply.Failure? ==> r == Failure(reply.error))
  {
    match create(m.apiKey, m.modelName, DetectLanguagePrompt, text)
    case Failure(e) => Failure(e)
    case Success(output) =>
      Text.StripIsTrimmedSlice(output);
      Success(Text.Strip(output))
  }

  /** The input of one translation call: the language pair, a newline, the text. */
  function TranslateInput(request: TranslationRequest, targetLang: string): (input: string) {
    TranslateLine(request.sourceLang, targetLang) + "\n" + request.text
  }

  /** The input is the language-pair line, a newline, then the user's text
      unchanged at its end. */
  lemma TranslateInputLayout(request: TranslationRequest, targetLang: string)
    ensures var line := TranslateLine(request.sourceLang, targetLang);
      var input := TranslateInput(request, targetLang);
      && |input| == |line| + 1 + |request.text|
      && input[..|line|] == line && input[|line|] == '\n'
      && input[|line| + 1..] == request.text
  {
  }

  /** One `_translate_one` task: the target's flag, a space, the stripped output. */
  function TranslateOne(m: OpenAILargeLanguageModel, create: ResponsesCreate, request: TranslationRequest, targetLang: string): (r: Result<string>)
    ensures var reply := create(m.apiKey, m.modelName, TranslatePrompt, TranslateInput(request, targetLang));
      && (r.Success? <==> reply.Success?)
      && (r.Success? ==> r.value == Language.FindNationalFlag(targetLang) + " " + Text.Strip(reply.value))
      && (r.Failure? ==> r.error == reply.error)
  {
    match create(m.apiKey, m.modelName, TranslatePrompt, TranslateInput(request, targetLang))
    case Failure(e) => Failure(e)
    case Success(output) => Success(Language.FindNationalFlag(targetLang) + " " + Text.Strip(output))
  }

  /** `translate`: the stripped original text behind its flag, and one
      flag-prefixed, stripped translation per target language, in request
      order. It raises exactly when one of the calls does. */
  function Translate(m: OpenAILargeLanguageModel, create: ResponsesCreate, request: TranslationRequest): (r: Result<TranslationResponse>)
    ensures r.Success? <==> forall i :: 0 <= i < |request.targetLang| ==>
      create(m.apiKey, m.modelName, TranslatePrompt, TranslateInput(request, request.targetLang[i])).Success?
    ensures r.Success? ==> r.value.originalText == Language.FindNationalFlag(request.sourceLang) + " " + Text.Strip(request.text)
    ensures r.Success? ==> |r.value.translatedText| == |request.targetLang|
    ensures r.Success? ==> forall i :: 0 <= i < |request.targetLang| ==>
      r.value.translatedText[i] == Language.FindNationalFlag(request.targetLang[i]) + " " +
        Text.Strip(create(m.apiKey, m.modelName, TranslatePrompt, TranslateInput(request, request.targetLang[i])).value)
    ensures r.Failure? ==> exists i :: 0 <= i < |request.targetLang| &&
                                       create(m.apiKey, m.modelName, TranslatePrompt, TranslateInput(request, request.targetLang[i])) == Failure(r.error)
  {
    var originalText := Language.FindNationalFlag(request.sourceLang) + " " + Text.Strip(request.text);
    var one := t => TranslateOne(m, create, request, t);
    match Gather(request.targetLang, one)
    case Failure(e) =>
      FailedCall(m, create, request, e);
      Failure(e)
    case Success(texts) =>
      TranslatedTexts(m, create, request, texts);
      Success(TranslationResponse(originalText, texts))
  }

  /** A failed task is a failed call, with the same error. */
  lemma FailedCall(m: OpenAILargeLanguageModel, create: ResponsesCreate, request: TranslationRequest, e: Error)
    requires exists i :: 0 <= i < |request.targetLang| && TranslateOne(m, create, request, request.targetLang[i]) == Failure(e)
    ensures exists i :: 0 <= i < |request.targetLang| &&
                        create(m.apiKey, m.modelName, TranslatePrompt, TranslateInput(request, request.targetLang[i])) == Failure(e)
  {
    var i :| 0 <= i < |request.targetLang| && TranslateOne(m, create, request, request.targetLang[i]) == Failure(e);
    assert create(m.apiKey, m.modelName, TranslatePrompt, TranslateInput(request, request.targetLang[i])) == Failure(e);
  }

  /** Each successful task is a successful call, flagged and stripped. */
  lemma TranslatedTexts(m: OpenAILargeLanguageModel, create: ResponsesCreate, request: TranslationRequest, texts: seq<string>)
    requires |texts| == |request.targetLang|
    requires forall i :: 0 <= i < |request.targetLang| ==> TranslateOne(m, create, request, request.targetLang[i]) == Success(texts[i])
    ensures forall i :: 0 <= i < |request.targetLang| ==>
      && create(m.apiKey, m.modelName, TranslatePrompt, TranslateInput(request, request.targetLang[i])).Success?
      && texts[i] == Language.FindNationalFlag(request.targetLang[i]) + " " +
           Text.Strip(create(m.apiKey, m.modelName, TranslatePrompt, TranslateInput(request, request.targetLang[i])).value)
  {
  }

  /** The provider behind the `LargeLanguageModel` interface; it keeps one
      translation per target. */
  function AsLanguageModel(m: OpenAILargeLanguageModel, create: ResponsesCreate): (llm: LanguageModel)
    ensures OnePerTarget(llm)
    ensures forall text :: llm.detectLanguage(text) == DetectLanguage(m, create, text)
    ensures forall request :: llm.translate(request) == Translate(m, create, request)
  {
    LanguageModel(text => DetectLanguage(m, create, text), request => Translate(m, create, request))
  }
}
