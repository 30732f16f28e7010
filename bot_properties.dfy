/** What the handlers of slack/bot.py promise, stated over their functions. */
module SlackBotProperties {
  import opened Common
  import opened Sqlite
  import opened Llm
  import opened Slack
  import opened SlackBot
  import Language
  import Text
  import Ollama

  /** A call that posts or edits a message, or saves a reference. */
  predicate Writes(e: Effect) {
    e.ChatPost? || e.ChatUpdate? || e.StoreSave?
  }

  /** A call to the language model. */
  predicate AsksModel(e: Effect) {
    e.Detect? || e.Translate?
  }

  // ----- bot suppression -----------------------------------------------------

  /** Messages from a bot are ignored by all three handlers: no call of any
      kind, no store change, no error. */
  lemma BotMessagesAreIgnored(t: Table, e: NewMessageEvent, edit: EditEvent, del: DeleteEvent,
                              say: Say, client: SlackClient, llm: LanguageModel)
    ensures IsBotMessage(e.message) ==> NewMessage(t, e, say, client, llm) == Step(Pass, t, [])
    ensures IsBotMessage(edit.message) ==> EditMessage(t, edit, client, llm) == Step(Pass, t, [])
    ensures IsBotMessage(del.previousMessage) ==> DeleteMessage(t, del, client) == Step(Pass, t, [])
  {
  }

  // ----- the create handler --------------------------------------------------

  /** The first call for a non-bot message is the placeholder, posted in the
      source message's thread. */
  lemma {:induction false} PlaceholderComesFirst(t: Table, e: NewMessageEvent, say: Say, client: SlackClient, llm: LanguageModel)
    requires !IsBotMessage(e.message)
    ensures var s := NewMessage(t, e, say, client, llm);
      s.effects != [] && s.effects[0] == ChatPost(e.channel, e.message.ts, Placeholder)
  {
  }

  /** The store changes only when the placeholder post returned a message: then
      the source key is mapped to that message, and nothing else changes. If
      the post raised or returned nothing, the store is as it was. */
  lemma NewMessageStoresOnlyThePostedReply(t: Table, e: NewMessageEvent, say: Say, client: SlackClient, llm: LanguageModel)
    ensures var s := NewMessage(t, e, say, client, llm);
      var src := MessageKey(e.channel, e.message.ts);
      var posted := say(e.channel, e.message.ts, Placeholder);
      && (s.table == t || (!IsBotMessage(e.message) && posted.Success? && posted.value.Some? &&
                           t.created && src !in t.rows && s.table == Table(true, t.rows[src := posted.value.value])))
      && (posted == Success(None) || posted.Failure? ==> s.table == t)
  {
  }

  /** When the placeholder post returns a message, its reference is saved
      right after the post and before the language is detected; a save that
      fails stops the handler before any model call. */
  lemma NewMessageSavesBeforeTranslating(t: Table, e: NewMessageEvent, dst: MessageKey,
                                         say: Say, client: SlackClient, llm: LanguageModel)
    requires !IsBotMessage(e.message)
    requires say(e.channel, e.message.ts, Placeholder) == Success(Some(dst))
    ensures var s := NewMessage(t, e, say, client, llm);
      && |s.effects| >= 2
      && s.effects[..2] == [ChatPost(e.channel, e.message.ts, Placeholder), StoreSave(MessageKey(e.channel, e.message.ts), dst)]
      && (Insert(t, MessageKey(e.channel, e.message.ts), dst).outcome.Fail? ==>
            s == Step(Insert(t, MessageKey(e.channel, e.message.ts), dst).outcome, t, s.effects[..2]))
      && (Insert(t, MessageKey(e.channel, e.message.ts), dst).outcome.Pass? ==>
            |s.effects| >= 3 && s.effects[2] == Detect(e.message.text))
  {
  }

  /** No later failure undoes the saved reference: once the placeholder is
      posted and saved, the store maps the source to it whatever detection,
      translation or the update then do. */
  lemma NewMessageKeepsReferenceOnLaterFailure(t: Table, e: NewMessageEvent, dst: MessageKey,
                                               say: Say, client: SlackClient, llm: LanguageModel)
    requires !IsBotMessage(e.message) && t.created && MessageKey(e.channel, e.message.ts) !in t.rows
    requires say(e.channel, e.message.ts, Placeholder) == Success(Some(dst))
    ensures NewMessage(t, e, say, client, llm).table == Table(true, t.rows[MessageKey(e.channel, e.message.ts) := dst])
  {
  }

  /** A placeholder post that returns nothing saves nothing, yet detection and
      translation still run, and reading the missing response then raises:
      the reply is never updated. */
  lemma NewMessageWithoutResponseRaises(t: Table, e: NewMessageEvent, lang: string, response: TranslationResponse,
                                        say: Say, client: SlackClient, llm: LanguageModel)
    requires !IsBotMessage(e.message)
    requires say(e.channel, e.message.ts, Placeholder) == Success(None)
    requires llm.detectLanguage(e.message.text) == Success(lang)
    requires llm.translate(TranslationRequest(e.message.text, lang, Language.FindTargetLanguages(lang))) == Success(response)
    ensures NewMessage(t, e, say, client, llm) ==
      Step(Fail(NoneNotSubscriptable), t,
           [ChatPost(e.channel, e.message.ts, Placeholder), Detect(e.message.text),
            Translate(TranslationRequest(e.message.text, lang, Language.FindTargetLanguages(lang)))])
  {
  }

  /** The whole create flow when every call succeeds: post, save, detect,
      translate into the policy's targets, and overwrite the placeholder with
      the formatted translation. */
  lemma NewMessageTranslates(t: Table, e: NewMessageEvent, dst: MessageKey, lang: string, response: TranslationResponse,
                             say: Say, client: SlackClient, llm: LanguageModel)
    requires !IsBotMessage(e.message) && t.created && MessageKey(e.channel, e.message.ts) !in t.rows
    requires say(e.channel, e.message.ts, Placeholder) == Success(Some(dst))
    requires llm.detectLanguage(e.message.text) == Success(lang)
    requires llm.translate(TranslationRequest(e.message.text, lang, Language.FindTargetLanguages(lang))) == Success(response)
    ensures var request := TranslationRequest(e.message.text, lang, Language.FindTargetLanguages(lang));
      NewMessage(t, e, say, client, llm) ==
      Step(client.chatUpdate(dst.channel, dst.ts, CreatedReplyText, FormatTranslation(response).blocks),
           Table(true, t.rows[MessageKey(e.channel, e.message.ts) := dst]),
           [ChatPost(e.channel, e.message.ts, Placeholder), StoreSave(MessageKey(e.channel, e.message.ts), dst),
            Detect(e.message.text), Translate(request),
            ChatUpdate(dst.channel, dst.ts, CreatedReplyText, FormatTranslation(response).blocks)])
  {
  }

  /** With a provider that keeps one translation per target, the reply is the
      original, a divider and one section per policy target: four blocks. */
  lemma ReplyHasFourBlocks(text: string, lang: string, llm: LanguageModel)
    requires OnePerTarget(llm)
    requires llm.translate(TranslationRequest(text, lang, Language.FindTargetLanguages(lang))).Success?
    ensures |FormatTranslation(llm.translate(TranslationRequest(text, lang, Language.FindTargetLanguages(lang))).value).blocks| == 4
  {
    var request := TranslationRequest(text, lang, Language.FindTargetLanguages(lang));
    assert |llm.translate(request).value.translatedText| == |request.targetLang|;
  }

  /** The Ollama answers of the worked create below: detection of "Hello"
      answers "en"; its translations into Korean and Thai answer "안녕" and
      "สวัสดี". */
  ghost predicate ExampleServer(m: Ollama.OllamaLargeLanguageModel, post: Ollama.HttpPost) {
    && post(m.api + "/api/generate", Ollama.GenerateRequest(m.modelName, DetectLanguagePrompt, "", "Hello", false)) ==
         Success(Ollama.HttpResponse(200, "", "en"))
    && post(m.api + "/api/generate", Ollama.GenerateRequest(m.modelName, TranslatePrompt, TranslateLine("en", "ko"), "Hello", false)) ==
         Success(Ollama.HttpResponse(200, "", "안녕"))
    && post(m.api + "/api/generate", Ollama.GenerateRequest(m.modelName, TranslatePrompt, TranslateLine("en", "th"), "Hello", false)) ==
         Success(Ollama.HttpResponse(200, "", "สวัสดี"))
  }

  /** A 200 reply to the detection prompt whose answer has no white space at
      its ends is the detected language as it stands, whatever the text and
      the body text. */
  lemma DetectKeepsTrimmedAnswer(m: Ollama.OllamaLargeLanguageModel, post: Ollama.HttpPost, text: string, body: string, answer: string)
    requires post(m.api + "/api/generate", Ollama.GenerateRequest(m.modelName, DetectLanguagePrompt, "", text, false)) ==
      Success(Ollama.HttpResponse(200, body, answer))
    requires Text.Trimmed(answer)
    ensures Ollama.DetectLanguage(m, post, text) == Success(answer)
  {
    Text.StripTrimmed(answer);
  }

  /** A 200 reply whose answer has no white space at its ends is the query's
      result as it stands, whatever the prompt, input and body text. */
  lemma QueryKeepsTrimmedAnswer(m: Ollama.OllamaLargeLanguageModel, post: Ollama.HttpPost, instructions: Instructions,
                                suffix: string, userInput: string, body: string, answer: string)
    requires post(m.api + "/api/generate", Ollama.GenerateRequest(m.modelName, instructions, suffix, userInput, false)) ==
      Success(Ollama.HttpResponse(200, body, answer))
    requires Text.Trimmed(answer)
    ensures Ollama.Query(m, post, instructions, suffix, userInput) == Success(answer)
  {
    Text.StripTrimmed(answer);
  }

  /** A translation into two targets whose queries answer `a` and `b`. */
  lemma TranslateIntoTwo(m: Ollama.OllamaLargeLanguageModel, post: Ollama.HttpPost, request: TranslationRequest, a: string, b: string)
    requires |request.targetLang| == 2
    requires Ollama.Query(m, post, TranslatePrompt, TranslateLine(request.sourceLang, request.targetLang[0]), request.text) == Success(a)
    requires Ollama.Query(m, post, TranslatePrompt, TranslateLine(request.sourceLang, request.targetLang[1]), request.text) == Success(b)
    ensures Ollama.Translate(m, post, request) ==
      Success(TranslationResponse(Language.FindNationalFlag(request.sourceLang) + " " + request.text,
                                  [Language.FindNationalFlag(request.targetLang[0]) + " " + a,
                                   Language.FindNationalFlag(request.targetLang[1]) + " " + b]))
  {
    var translated := Ollama.Translate(m, post, request);
    assert translated.Success? by {
      forall i | 0 <= i < |request.targetLang|
        ensures Ollama.Query(m, post, TranslatePrompt, TranslateLine(request.sourceLang, request.targetLang[i]), request.text).Success?
      {
        assert i == 0 || i == 1;
      }
    }
    var texts := translated.value.translatedText;
    assert |texts| == 2;
    assert texts[0] == Language.FindNationalFlag(request.targetLang[0]) + " " + a;
    assert texts[1] == Language.FindNationalFlag(request.targetLang[1]) + " " + b;
    assert texts == [texts[0], texts[1]];
  }

  /** The flags come from the provider: it prefixes the original with the
      English flag and each raw answer with its target's flag. */
  lemma ExampleTranslation(m: Ollama.OllamaLargeLanguageModel, post: Ollama.HttpPost)
    requires ExampleServer(m, post)
    ensures Ollama.Translate(m, post, TranslationRequest("Hello", "en", ["ko", "th"])) ==
      Success(TranslationResponse(":flag-us: Hello", [":flag-kr: 안녕", ":flag-th: สวัสดี"]))
  {
    QueryKeepsTrimmedAnswer(m, post, TranslatePrompt, TranslateLine("en", "ko"), "Hello", "", "안녕");
    QueryKeepsTrimmedAnswer(m, post, TranslatePrompt, TranslateLine("en", "th"), "Hello", "", "สวัสดี");
    TranslateIntoTwo(m, post, TranslationRequest("Hello", "en", ["ko", "th"]), "안녕", "สวัสดี");
    Language.NationalFlagTable();
    assert ":flag-us:" + " " + "Hello" == ":flag-us: Hello";
    assert ":flag-kr:" + " " + "안녕" == ":flag-kr: 안녕";
    assert ":flag-th:" + " " + "สวัสดี" == ":flag-th: สวัสดี";
  }

  /** The Ollama provider over that server detects "Hello" as English and
      translates it, flags included, into Korean and Thai. */
  lemma ExampleProvider(m: Ollama.OllamaLargeLanguageModel, post: Ollama.HttpPost)
    requires ExampleServer(m, post)
    ensures var llm := Ollama.AsLanguageModel(m, post);
      && llm.detectLanguage("Hello") == Success("en")
      && llm.translate(TranslationRequest("Hello", "en", ["ko", "th"])) ==
         Success(TranslationResponse(":flag-us: Hello", [":flag-kr: 안녕", ":flag-th: สวัสดี"]))
  {
    DetectKeepsTrimmedAnswer(m, post, "Hello", "", "en");
    ExampleTranslation(m, post);
  }

  /** A create of "Hello" in C1 at 100.1 on a freshly initialised store, with
      a provider that detects English and returns the flagged Korean and Thai
      texts: the reply is the flagged original, a divider and the two flagged
      translations, and the store maps the source to the placeholder. */
  lemma HelloCreate(t: Table, e: NewMessageEvent, dst: MessageKey, say: Say, client: SlackClient, llm: LanguageModel)
    requires t == Initialized(EmptyFile)
    requires e == NewMessageEvent("C1", Message(None, None, "100.1", "Hello"))
    requires say("C1", "100.1", Placeholder) == Success(Some(dst))
    requires llm.detectLanguage("Hello") == Success("en")
    requires llm.translate(TranslationRequest("Hello", "en", ["ko", "th"])) ==
      Success(TranslationResponse(":flag-us: Hello", [":flag-kr: 안녕", ":flag-th: สวัสดี"]))
    ensures var blocks := [SectionBlock(":flag-us: Hello"), Divider, SectionBlock(":flag-kr: 안녕"), SectionBlock(":flag-th: สวัสดี")];
      var s := NewMessage(t, e, say, client, llm);
      && s.outcome == client.chatUpdate(dst.channel, dst.ts, CreatedReplyText, blocks)
      && s.table.rows == map[MessageKey("C1", "100.1") := dst]
      && s.effects[|s.effects| - 1] == ChatUpdate(dst.channel, dst.ts, CreatedReplyText, blocks)
  {
    var response := TranslationResponse(":flag-us: Hello", [":flag-kr: 안녕", ":flag-th: สวัสดี"]);
    assert Language.FindTargetLanguages("en") == ["ko", "th"];
    NewMessageTranslates(t, e, dst, "en", response, say, client, llm);
    assert FormatTranslation(response).blocks ==
      [SectionBlock(":flag-us: Hello"), Divider, SectionBlock(":flag-kr: 안녕"), SectionBlock(":flag-th: สวัสดี")];
  }

  /** A worked create through the Ollama provider, on a freshly initialised
      store: "Hello" in C1 at 100.1, answered as above. The handler's reply is
      the flagged original, a divider and the two flagged translations, in
      that order, and the store maps the source to the placeholder. */
  lemma NewMessageExample(m: Ollama.OllamaLargeLanguageModel, post: Ollama.HttpPost, t: Table, e: NewMessageEvent,
                          dst: MessageKey, say: Say, client: SlackClient)
    requires t == Initialized(EmptyFile)
    requires e == NewMessageEvent("C1", Message(None, None, "100.1", "Hello"))
    requires say("C1", "100.1", Placeholder) == Success(Some(dst))
    requires ExampleServer(m, post)
    ensures var blocks := [SectionBlock(":flag-us: Hello"), Divider, SectionBlock(":flag-kr: 안녕"), SectionBlock(":flag-th: สวัสดี")];
      var s := NewMessage(t, e, say, client, Ollama.AsLanguageModel(m, post));
      && s.outcome == client.chatUpdate(dst.channel, dst.ts, CreatedReplyText, blocks)
      && s.table.rows == map[MessageKey("C1", "100.1") := dst]
      && s.effects[|s.effects| - 1] == ChatUpdate(dst.channel, dst.ts, CreatedReplyText, blocks)
  {
    ExampleProvider(m, post);
    HelloCreate(t, e, dst, say, client, Ollama.AsLanguageModel(m, post));
  }

  // ----- the edit handler ----------------------------------------------------

  /** A tombstone edit is handed to the delete handler with the edit event's
      `previous_message`, and the model is never asked. */
  lemma {:induction false} TombstoneEditIsDelete(t: Table, e: EditEvent, client: SlackClient, llm: LanguageModel)
    requires !IsBotMessage(e.message) && e.message.text == Tombstone
    ensures EditMessage(t, e, client, llm) == DeleteMessage(t, DeleteEvent(e.channel, e.previousMessage), client)
    ensures forall i :: 0 <= i < |EditMessage(t, e, client, llm).effects| ==>
      !AsksModel(EditMessage(t, e, client, llm).effects[i])
  {
    DeleteOnlyDeletes(t, DeleteEvent(e.channel, e.previousMessage), client);
  }

  /** An edit of a translated message overwrites its reply in place: the store
      is unchanged and nothing is posted or saved. When the calls succeed, the
      reply is the formatted translation of the edited text. */
  lemma EditWithReferenceUpdatesInPlace(t: Table, e: EditEvent, dst: MessageKey, lang: string,
                                        client: SlackClient, llm: LanguageModel)
    requires !IsBotMessage(e.message) && e.message.text != Tombstone
    requires llm.detectLanguage(e.message.text) == Success(lang)
    requires Select(t, MessageKey(e.channel, e.message.ts)) == Success(Some(dst))
    ensures var s := EditMessage(t, e, client, llm);
      && s.table == t
      && (forall i :: 0 <= i < |s.effects| ==> !s.effects[i].ChatPost? && !s.effects[i].StoreSave? && !s.effects[i].StoreDelete?)
    ensures var request := TranslationRequest(e.message.text, lang, Language.FindTargetLanguages(lang));
      llm.translate(request).Success? ==>
      EditMessage(t, e, client, llm) ==
      Step(client.chatUpdate(dst.channel, dst.ts, EditedReplyText, FormatTranslation(llm.translate(request).value).blocks), t,
           [Detect(e.message.text), StoreGet(MessageKey(e.channel, e.message.ts)), Translate(request),
            ChatUpdate(dst.channel, dst.ts, EditedReplyText, FormatTranslation(llm.translate(request).value).blocks)])
  {
  }

  /** As written, an edit of a message without a reference reaches the
      fallback call, which raises before it posts anything. */
  lemma EditWithoutReferenceRaises(t: Table, e: EditEvent, lang: string, client: SlackClient, llm: LanguageModel)
    requires !IsBotMessage(e.message) && e.message.text != Tombstone
    requires llm.detectLanguage(e.message.text) == Success(lang)
    requires Select(t, MessageKey(e.channel, e.message.ts)) == Success(None)
    ensures EditMessage(t, e, client, llm) ==
      Step(Fail(MissingClient), t, [Detect(e.message.text), StoreGet(MessageKey(e.channel, e.message.ts))])
  {
  }

  /** An edit never adds a reference or changes a destination; it can only
      remove one, through the tombstone path. */
  lemma EditNeverAddsReferences(t: Table, e: EditEvent, client: SlackClient, llm: LanguageModel)
    ensures var s := EditMessage(t, e, client, llm);
      s.table.rows.Keys <= t.rows.Keys && forall k :: k in s.table.rows ==> s.table.rows[k] == t.rows[k]
  {
  }

  /** The intended fallback: without a reference, the edited message goes
      through the create flow (its first call the placeholder post, in the
      edited message's thread), just as a new message with the edited text. */
  lemma EditWithoutReferenceRecreates(t: Table, e: EditEvent, lang: string, client: SlackClient, llm: LanguageModel)
    requires !IsBotMessage(e.message) && e.message.text != Tombstone
    requires llm.detectLanguage(e.message.text) == Success(lang)
    requires Select(t, MessageKey(e.channel, e.message.ts)) == Success(None)
    ensures var created := NewMessage(t, NewMessageEvent(e.channel, Message(Some("message_changed"), None, e.message.ts, e.message.text)),
                                      PostThroughClient(client), client, llm);
      EditMessageIntended(t, e, client, llm) == After([Detect(e.message.text), StoreGet(MessageKey(e.channel, e.message.ts))], created)
    ensures var s := EditMessageIntended(t, e, client, llm);
      |s.effects| >= 3 && s.effects[2] == ChatPost(e.channel, e.message.ts, Placeholder)
    ensures var posted := client.chatPostMessage(e.channel, Placeholder, e.message.ts);
      posted.Failure? ==>
      EditMessageIntended(t, e, client, llm) ==
      Step(Fail(posted.error), t, [Detect(e.message.text), StoreGet(MessageKey(e.channel, e.message.ts)),
                                   ChatPost(e.channel, e.message.ts, Placeholder)])
  {
  }

  /** The intended edit handler differs from the written one only where the
      written one raises for want of `client`. */
  lemma IntendedEditAgreesElsewhere(t: Table, e: EditEvent, client: SlackClient, llm: LanguageModel)
    requires EditMessage(t, e, client, llm).outcome != Fail(MissingClient)
    ensures EditMessageIntended(t, e, client, llm) == EditMessage(t, e, client, llm)
  {
  }

  // ----- the delete handler --------------------------------------------------

  /** The delete handler only deletes: it never posts, updates, saves or asks
      the model. */
  lemma DeleteOnlyDeletes(t: Table, e: DeleteEvent, client: SlackClient)
    ensures var s := DeleteMessage(t, e, client);
      forall i :: 0 <= i < |s.effects| ==> !Writes(s.effects[i]) && !AsksModel(s.effects[i])
  {
  }

  /** A delete with a reference deletes the reply, then the reference; a later
      lookup finds nothing. */
  lemma DeleteThenUnmap(t: Table, e: DeleteEvent, dst: MessageKey, client: SlackClient)
    requires !IsBotMessage(e.previousMessage)
    requires Select(t, MessageKey(e.channel, e.previousMessage.ts)) == Success(Some(dst))
    requires client.chatDelete(dst.channel, dst.ts) == Pass
    ensures var src := MessageKey(e.channel, e.previousMessage.ts);
      var s := DeleteMessage(t, e, client);
      && s == Step(Pass, Table(true, t.rows - {src}), [StoreGet(src), ChatDelete(dst.channel, dst.ts), StoreDelete(src)])
      && Select(s.table, src) == Success(None)
  {
  }

  /** If deleting the reply raises, the reference is kept: the removal is
      never reached. */
  lemma DeleteFailureKeepsReference(t: Table, e: DeleteEvent, dst: MessageKey, err: Error, client: SlackClient)
    requires !IsBotMessage(e.previousMessage)
    requires Select(t, MessageKey(e.channel, e.previousMessage.ts)) == Success(Some(dst))
    requires client.chatDelete(dst.channel, dst.ts) == Fail(err)
    ensures DeleteMessage(t, e, client) ==
      Step(Fail(err), t, [StoreGet(MessageKey(e.channel, e.previousMessage.ts)), ChatDelete(dst.channel, dst.ts)])
  {
  }

  /** A delete of a message that was never translated looks the reference up
      and stops there: no Slack call, no store write, no error. */
  lemma DeleteWithoutReferenceIsSilent(t: Table, e: DeleteEvent, client: SlackClient)
    requires Select(t, MessageKey(e.channel, e.previousMessage.ts)) == Success(None)
    ensures DeleteMessage(t, e, client) ==
      Step(Pass, t, if IsBotMessage(e.previousMessage) then [] else [StoreGet(MessageKey(e.channel, e.previousMessage.ts))])
  {
  }

  // ----- the reply layout ----------------------------------------------------

  /** The texts of a reply's section blocks, in order; dividers carry none. */
  function SectionTexts(blocks: seq<Block>): (texts: seq<string>) {
    if blocks == [] then []
    else
      var rest := SectionTexts(blocks[1..]);
      match blocks[0]
      case Section(fields) => (if |fields| == 1 then [fields[0].text] else []) + rest
      case Divider => rest
  }

  lemma {:induction false} SectionTextsOfSections(texts: seq<string>)
    ensures SectionTexts(Sections(texts)) == texts
  {
    if texts != [] {
      SectionTextsOfSections(texts[1..]);
      assert Sections(texts)[1..] == Sections(texts[1..]);
    }
  }

  /** Reading the section texts back from a formatted reply gives the
      original text followed by the translations, in order. */
  lemma FormatTranslationRoundTrip(response: TranslationResponse)
    ensures SectionTexts(FormatTranslation(response).blocks) == [response.originalText] + response.translatedText
  {
    var blocks := FormatTranslation(response).blocks;
    assert blocks[1..][1..] == Sections(response.translatedText);
    SectionTextsOfSections(response.translatedText);
  }
}
