/** llm/ollama.py: the provider that queries a local Ollama server. The HTTP
    call `requests.post(url, json=data)` is a parameter of the model. */
module Ollama {
  import opened Common
  import opened Llm
  import Language
  import Text

  /** The fields `__init__` sets; they are never changed afterwards. */
  datatype OllamaLargeLanguageModel = OllamaLargeLanguageModel(api: string, modelName: string)

  /** The JSON body of `/api/generate`. Its "prompt" field is the text of
      `instructions` followed by `promptSuffix`, two newlines and `userInput`. */
  datatype GenerateRequest = GenerateRequest(
    model: string, instructions: Instructions, promptSuffix: string, userInput: string, stream: bool)

  /** What the handler reads of the HTTP reply: its status, its body text,
      and the "response" field of its JSON. */
  datatype HttpResponse = HttpResponse(statusCode: int, text: string, response: string)

  /** `requests.post(url, json=data)`, which may raise. */
  type HttpPost = (string, GenerateRequest) -> Result<HttpResponse>

  /** `__init__`: raises ValueError when the host or the model name is None. */
  function New(host: Option<string>, modelName: Option<string>): (r: Result<OllamaLargeLanguageModel>)
    ensures r.Success? <==> host.Some? && modelName.Some?
    ensures r.Success? ==> r.value.api == host.value && r.value.modelName == modelName.value
    ensures host.None? ==> r == Failure(ValueError("Ollama host is not set"))
    ensures host.Some? && modelName.None? ==> r == Failure(ValueError("Ollama model name is not set"))
  {
    if host.None? then Failure(ValueError("Ollama host is not set"))
    else if modelName.None? then Failure(ValueError("Ollama model name is not set"))
    else Success(OllamaLargeLanguageModel(host.value, modelName.value))
  }

  /** `__query_ollama`: a non-200 status raises; otherwise the generated text,
      stripped. */
  function Query(m: OllamaLargeLanguageModel, post: HttpPost, instructions: Instructions,
                 promptSuffix: string, userInput: string): (r: Result<string>)
    ensures var reply := post(m.api + "/api/generate", GenerateRequest(m.modelName, instructions, promptSuffix, userInput, false));
      && (r.Success? <==> reply.Success? && reply.value.statusCode == 200)
      && (r.Success? ==> r.value == Text.Strip(reply.value.response) && Text.Trimmed(r.value))
      && (reply.Success? && reply.value.statusCode != 200 ==>
            r == Failure(QueryError("Failed to query Ollama: " + reply.value.text)))
      && (reply.Failure? ==> r == Failure(reply.error))
  {
    var url := m.api + "/api/generate";
    var data := GenerateRequest(m.modelName, instructions, promptSuffix, userInput, false);
    match post(url, data)
    case Failure(e) => Failure(e)
    case Success(reply) =>
      if reply.statusCode != 200 then Failure(QueryError("Failed to query Ollama: " + reply.text))
      else
        Text.StripIsTrimmedSlice(reply.response);
        Success(Text.Strip(reply.response))
  }

  /** `detect_language`: the stripped answer to the detection prompt. */
  function DetectLanguage(m: OllamaLargeLanguageModel, post: HttpPost, text: string): (r: Result<string>)
    ensures var reply := post(m.api + "/api/generate", GenerateRequest(m.modelName, DetectLanguagePrompt, "", text, false));
      && (r.Success? <==> reply.Success? && reply.value.statusCode == 200)
      && (r.Success? ==> r.value == Text.Strip(reply.value.response) && Text.Trimmed(r.value))
      && (reply.Success? && reply.value.statusCode != 200 ==>
            r == Failure(QueryError("Failed to query Ollama: " + reply.value.text)))
      && (reply.Failure? ==> r == Failure(reply.error))
  {
    Query(m, post, DetectLanguagePrompt, "", text)
  }

  /** One `_translate_one` task: the target's flag, a space, the query result. */
  function TranslateOne(m: OllamaLargeLanguageModel, post: HttpPost, request: TranslationRequest, targetLang: string): (r: Result<string>)
    ensures var q := Query(m, post, TranslatePrompt, TranslateLine(request.sourceLang, targetLang), request.text);
      && (r.Success? <==> q.Success?)
      && (r.Success? ==> r.value == Language.FindNationalFlag(targetLang) + " " + q.value)
      && (r.Failure? ==> r.error == q.error)
  {
    match Query(m, post, TranslatePrompt, TranslateLine(request.sourceLang, targetLang), request.text)
    case Failure(e) => Failure(e)
    case Success(t) => Success(Language.FindNationalFlag(targetLang) + " " + t)
  }

  /** `translate`: the original text behind its flag (not stripped), and one
      flag-prefixed translation per target language, in request order. It
      raises exactly when one of the queries does. */
  function Translate(m: OllamaLargeLanguageModel, post: HttpPost, request: TranslationRequest): (r: Result<TranslationResponse>)
    ensures r.Success? <==> forall i :: 0 <= i < |request.targetLang| ==>
      Query(m, post, TranslatePrompt, TranslateLine(request.sourceLang, request.targetLang[i]), request.text).Success?
    ensures r.Success? ==> r.value.originalText == Language.FindNationalFlag(request.sourceLang) + " " + request.text
    ensures r.Success? ==> |r.value.translatedText| == |request.targetLang|
    ensures r.Success? ==> forall i :: 0 <= i < |request.targetLang| ==>
      r.value.translatedText[i] == Language.FindNationalFlag(request.targetLang[i]) + " " +
        Query(m, post, TranslatePrompt, TranslateLine(request.sourceLang, request.targetLang[i]), request.text).value
    ensures r.Failure? ==> exists i :: 0 <= i < |request.targetLang| &&
                                       Query(m, post, TranslatePrompt, TranslateLine(request.sourceLang, request.targetLang[i]), request.text) == Failure(r.error)
  {
    var originalText := Language.FindNationalFlag(request.sourceLang) + " " + request.text;
    match Gather(request.targetLang, t => TranslateOne(m, post, request, t))
    case Failure(e) => Failure(e)
    case Success(texts) => Success(TranslationResponse(originalText, texts))
  }

  /** The provider behind the `LargeLanguageModel` interface; it keeps one
      translation per target. */
  function AsLanguageModel(m: OllamaLargeLanguageModel, post: HttpPost): (llm: LanguageModel)
    ensures OnePerTarget(llm)
    ensures forall text :: llm.detectLanguage(text) == DetectLanguage(m, post, text)
    ensures forall request :: llm.translate(request) == Translate(m, post, request)
  {
    LanguageModel(text => DetectLanguage(m, post, text), request => Translate(m, post, request))
  }
}
