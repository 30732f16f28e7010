/** slack/bot.py: the event handlers that keep the bot's threaded translation
    reply in step with the original message, and the reply formatter.

    Each handler is given twice: as a function from the store, the event and
    the external calls to a `Step` (what it returns or raises, the store after
    it, the calls it attempted), and as a method of `TranslationBot`, which
    runs the same steps on the shared store object and the trace. */
module SlackBot {
  import opened Common
  import opened Sqlite
  import opened Llm
  import opened Slack
  import Language

  const Placeholder := ":hourglass_flowing_sand: Translating..."
  const Tombstone := "This message was deleted."
  const CreatedReplyText := "Translated message..."
  const EditedReplyText := "This is the translated message..."
  const SectionBlockType := "section"

  /** `response["channel"]` on a `None` response. */
  const NoneNotSubscriptable := TypeError("'NoneType' object is not subscriptable")
  /** The fallback call `handle_new_message(new_event, lambda ...)` lacks `client`. */
  const MissingClient := TypeError("handle_new_message() missing 1 required positional argument: 'client'")

  /** `__is_bot_message` */
  predicate IsBotMessage(m: Message) {
    m.subtype == Some("bot_message") || m.botId.Some?
  }

  /** `__section_block` */
  function SectionBlock(text: string): (b: Block)
    ensures BlockType(b) == SectionBlockType
    ensures b.fields == [TextObject("mrkdwn", text)]
  {
    Section([TextObject("mrkdwn", text)])
  }

  /** One section block per text, in order. */
  function Sections(texts: seq<string>): (r: seq<Block>)
    ensures |r| == |texts|
    ensures forall i :: 0 <= i < |texts| ==> r[i] == SectionBlock(texts[i])
  {
    if texts == [] then [] else [SectionBlock(texts[0])] + Sections(texts[1..])
  }

  /** `__format_translation_as_slack_message`: the original text, a divider,
      then one section per translated text, in order. */
  function FormatTranslation(response: TranslationResponse): (m: SlackMessage)
    ensures |m.blocks| == 2 + |response.translatedText|
    ensures m.blocks[0] == SectionBlock(response.originalText) && m.blocks[1] == Divider
    ensures forall i :: 0 <= i < |response.translatedText| ==>
      m.blocks[2 + i] == SectionBlock(response.translatedText[i])
  {
    SlackMessage([SectionBlock(response.originalText), Divider] + Sections(response.translatedText))
  }

  /** What one handler does: its outcome, the store after it, and the calls it
      attempted, in order. */
  datatype Step = Step(outcome: Outcome, table: Table, effects: seq<Effect>)

  /** `s`, with `prefix` attempted before it. */
  function After(prefix: seq<Effect>, s: Step): (r: Step) {
    Step(s.outcome, s.table, prefix + s.effects)
  }

  /** Translate `text`, detected as `lang`, into the policy's targets and
      overwrite the reply `dst` with the formatted result. A `dst` of `None`
      is the placeholder post that returned nothing: subscripting it raises. */
  function Reply(t: Table, text: string, lang: string, dst: Option<MessageKey>, replyText: string,
                 client: SlackClient, llm: LanguageModel): (r: Step)
    ensures r.table == t
    ensures var request := TranslationRequest(text, lang, Language.FindTargetLanguages(lang));
      && r.effects != [] && r.effects[0] == Translate(request)
      && (r.outcome.Pass? ==>
            && dst.Some? && llm.translate(request).Success?
            && r.effects == [Translate(request),
                             ChatUpdate(dst.value.channel, dst.value.ts, replyText, FormatTranslation(llm.translate(request).value).blocks)])
  {
    var request := TranslationRequest(text, lang, Language.FindTargetLanguages(lang));
    var asked := [Translate(request)];
    match llm.translate(request)
    case Failure(err) => Step(Fail(err), t, asked)
    case Success(response) =>
      var blocks := FormatTranslation(response).blocks;
      match dst
      case None => Step(Fail(NoneNotSubscriptable), t, asked)
      case Some(d) =>
        Step(client.chatUpdate(d.channel, d.ts, replyText, blocks), t, asked + [ChatUpdate(d.channel, d.ts, replyText, blocks)])
  }

  /** The body of `handle_new_message` past the bot test: post the
      placeholder in the thread; store the reference if the post returned
      something; detect, translate and update the placeholder. */
  function Create(t: Table, channel: string, ts: string, text: string, say: Say,
                  client: SlackClient, llm: LanguageModel): (r: Step)
    ensures r.effects != [] && r.effects[0] == ChatPost(channel, ts, Placeholder)
    ensures var posted := say(channel, ts, Placeholder);
      r.table == if posted.Success? && posted.value.Some? then Insert(t, MessageKey(channel, ts), posted.value.value).table else t
  {
    var posted := [ChatPost(channel, ts, Placeholder)];
    match say(channel, ts, Placeholder)
    case Failure(err) => Step(Fail(err), t, posted)
    case Success(response) =>
      var src := MessageKey(channel, ts);
      var saved := if response.Some? then Insert(t, src, response.value) else Write(Pass, t);
      var stored := if response.Some? then posted + [StoreSave(src, response.value)] else posted;
      assert stored[0] == ChatPost(channel, ts, Placeholder);
      if saved.outcome.Fail? then Step(saved.outcome, saved.table, stored)
      else After(stored, DetectThenReply(saved.table, text, response, client, llm))
  }

  /** The rest of the create flow once the placeholder is posted (and its
      reference stored): detect the text's language, then reply. */
  function DetectThenReply(t: Table, text: string, dst: Option<MessageKey>, client: SlackClient, llm: LanguageModel): (r: Step)
    ensures r.table == t && r.effects != [] && r.effects[0] == Detect(text)
  {
    match llm.detectLanguage(text)
    case Failure(err) => Step(Fail(err), t, [Detect(text)])
    case Success(lang) => After([Detect(text)], Reply(t, text, lang, dst, CreatedReplyText, client, llm))
  }

  /** `handle_new_message` */
  function NewMessage(t: Table, e: NewMessageEvent, say: Say, client: SlackClient, llm: LanguageModel): (r: Step)
    ensures r.effects == [] <==> IsBotMessage(e.message)
    ensures r.table.rows.Keys <= t.rows.Keys + {MessageKey(e.channel, e.message.ts)}
    ensures forall k :: k in t.rows ==> k in r.table.rows && r.table.rows[k] == t.rows[k]
  {
    if IsBotMessage(e.message) then Step(Pass, t, [])
    else Create(t, e.channel, e.message.ts, e.message.text, say, client, llm)
  }

  /** `handle_message_delete`: delete the reply, then the reference. */
  function DeleteMessage(t: Table, e: DeleteEvent, client: SlackClient): (r: Step)
    ensures var src := MessageKey(e.channel, e.previousMessage.ts);
      r.table == t || r.table == Remove(t, src).table
    ensures var src := MessageKey(e.channel, e.previousMessage.ts);
      !IsBotMessage(e.previousMessage) ==> r.effects != [] && r.effects[0] == StoreGet(src)
    ensures var src := MessageKey(e.channel, e.previousMessage.ts);
      r.table != t ==> && r.outcome == Pass && |r.effects| == 3
                       && r.effects[0] == StoreGet(src) && r.effects[1].ChatDelete? && r.effects[2] == StoreDelete(src)
  {
    if IsBotMessage(e.previousMessage) then Step(Pass, t, [])
    else
      var src := MessageKey(e.channel, e.previousMessage.ts);
      var looked := [StoreGet(src)];
      match Select(t, src)
      case Failure(err) => Step(Fail(err), t, looked)
      case Success(None) => Step(Pass, t, looked)
      case Success(Some(dst)) =>
        var deleted := looked + [ChatDelete(dst.channel, dst.ts)];
        match client.chatDelete(dst.channel, dst.ts)
        case Fail(err) => Step(Fail(err), t, deleted)
        case Pass =>
          var w := Remove(t, src);
          Step(w.outcome, w.table, deleted + [StoreDelete(src)])
  }

  /** `handle_message_edit`, as written: a tombstone text goes to the delete
      handler; otherwise the text is detected and the reference looked up; an
      existing reply is overwritten, and a missing one reaches the fallback
      call, which raises because it lacks the `client` argument. */
  function EditMessage(t: Table, e: EditEvent, client: SlackClient, llm: LanguageModel): (r: Step)
    ensures r.table == t || r.table == Remove(t, MessageKey(e.channel, e.previousMessage.ts)).table
    ensures !IsBotMessage(e.message) && e.message.text != Tombstone ==>
      r.table == t && r.effects != [] && r.effects[0] == Detect(e.message.text)
    ensures !IsBotMessage(e.message) && e.message.text != Tombstone && llm.detectLanguage(e.message.text).Success? ==>
      |r.effects| >= 2 && r.effects[1] == StoreGet(MessageKey(e.channel, e.message.ts))
  {
    if IsBotMessage(e.message) then Step(Pass, t, [])
    else if e.message.text == Tombstone then DeleteMessage(t, DeleteEvent(e.channel, e.previousMessage), client)
    else
      var text := e.message.text;
      var detected := [Detect(text)];
      match llm.detectLanguage(text)
      case Failure(err) => Step(Fail(err), t, detected)
      case Success(lang) =>
        var looked := detected + [StoreGet(MessageKey(e.channel, e.message.ts))];
        match Select(t, MessageKey(e.channel, e.message.ts))
        case Failure(err) => Step(Fail(err), t, looked)
        case Success(None) => Step(Fail(MissingClient), t, looked)
        case Success(Some(dst)) => After(looked, Reply(t, text, lang, Some(dst), EditedReplyText, client, llm))
  }

  /** The placeholder post of the fallback: `client.chat_postMessage` with the
      keyword arguments the handler's `say` call passes, so `say`'s
      `(channel, thread_ts, text)` reach the client as `(channel, text,
      thread_ts)`. */
  function PostThroughClient(client: SlackClient): (say: Say) {
    (channel, threadTs, text) => client.chatPostMessage(channel, text, threadTs)
  }

  /** `handle_message_edit` as its log line "handling as new message" intends:
      without a reference, the edited message goes through the whole create
      flow, posting through `client.chat_postMessage`. */
  function EditMessageIntended(t: Table, e: EditEvent, client: SlackClient, llm: LanguageModel): (r: Step)
    ensures r.table.rows.Keys <= t.rows.Keys + {MessageKey(e.channel, e.message.ts)}
    ensures forall k :: k in r.table.rows && k in t.rows ==> r.table.rows[k] == t.rows[k]
  {
    if IsBotMessage(e.message) then Step(Pass, t, [])
    else if e.message.text == Tombstone then DeleteMessage(t, DeleteEvent(e.channel, e.previousMessage), client)
    else
      var text := e.message.text;
      var detected := [Detect(text)];
      match llm.detectLanguage(text)
      case Failure(err) => Step(Fail(err), t, detected)
      case Success(lang) =>
        var looked := detected + [StoreGet(MessageKey(e.channel, e.message.ts))];
        match Select(t, MessageKey(e.channel, e.message.ts))
        case Failure(err) => Step(Fail(err), t, looked)
        case Success(None) => After(looked, Create(t, e.channel, e.message.ts, text, PostThroughClient(client), client, llm))
        case Success(Some(dst)) => After(looked, Reply(t, text, lang, Some(dst), EditedReplyText, client, llm))
  }

  /** The module-level state of slack/bot.py: the shared `DATABASE` and
      `LARGE_LANGUAGE_MODEL`, and the trace of every external call made. */
  class TranslationBot {
    const db: SQLiteDatabase
    const llm: LanguageModel
    var trace: seq<Effect>

    constructor (db: SQLiteDatabase, llm: LanguageModel)
      ensures this.db == db && this.llm == llm && trace == []
    {
      this.db, this.llm, trace := db, llm, [];
    }

    method SendReply(text: string, lang: string, dst: Option<MessageKey>, replyText: string, client: SlackClient)
      returns (r: Outcome)
      modifies this
      ensures var s := Reply(db.State(), text, lang, dst, replyText, client, llm);
        r == s.outcome && trace == old(trace) + s.effects
    {
      var request := TranslationRequest(text, lang, Language.FindTargetLanguages(lang));
      trace := trace + [Translate(request)];
      var translated := llm.translate(request);
      if translated.Failure? {
        return Fail(translated.error);
      }
      var blocks := FormatTranslation(translated.value).blocks;
      if dst.None? {
        return Fail(NoneNotSubscriptable);
      }
      trace := trace + [ChatUpdate(dst.value.channel, dst.value.ts, replyText, blocks)];
      r := client.chatUpdate(dst.value.channel, dst.value.ts, replyText, blocks);
    }

    method CreateReply(channel: string, ts: string, text: string, say: Say, client: SlackClient)
      returns (r: Outcome)
      modifies this, db
      ensures var s := Create(old(db.State()), channel, ts, text, say, client, llm);
        r == s.outcome && db.State() == s.table && trace == old(trace) + s.effects
    {
      trace := trace + [ChatPost(channel, ts, Placeholder)];
      var posted := say(channel, ts, Placeholder);
      if posted.Failure? {
        return Fail(posted.error);
      }
      var response := posted.value;
      if response.Some? {
        trace := trace + [StoreSave(MessageKey(channel, ts), response.value)];
        var saved := db.SaveTranslatedMessageReference(channel, ts, response.value.channel, response.value.ts);
        if saved.Fail? {
          return saved;
        }
      }
      r := DetectAndReply(text, response, client);
    }

    method DetectAndReply(text: string, dst: Option<MessageKey>, client: SlackClient) returns (r: Outcome)
      modifies this
      ensures var s := DetectThenReply(db.State(), text, dst, client, llm);
        r == s.outcome && trace == old(trace) + s.effects
    {
      trace := trace + [Detect(text)];
      var detected := llm.detectLanguage(text);
      if detected.Failure? {
        return Fail(detected.error);
      }
      r := SendReply(text, detected.value, dst, CreatedReplyText, client);
    }

    method HandleNewMessage(event: NewMessageEvent, say: Say, client: SlackClient) returns (r: Outcome)
      modifies this, db
      ensures var s := NewMessage(old(db.State()), event, say, client, llm);
        r == s.outcome && db.State() == s.table && trace == old(trace) + s.effects
    {
      if IsBotMessage(event.message) {
        return Pass;
      }
      r := CreateReply(event.channel, event.message.ts, event.message.text, say, client);
    }

    method HandleMessageDelete(event: DeleteEvent, client: SlackClient) returns (r: Outcome)
      modifies this, db
      ensures var s := DeleteMessage(old(db.State()), event, client);
        r == s.outcome && db.State() == s.table && trace == old(trace) + s.effects
    {
      if IsBotMessage(event.previousMessage) {
        return Pass;
      }
      trace := trace + [StoreGet(MessageKey(event.channel, event.previousMessage.ts))];
      var found := db.GetTranslatedMessageReference(event.channel, event.previousMessage.ts);
      if found.Failure? {
        return Fail(found.error);
      }
      if found.value.None? {
        return Pass;
      }
      var dst := found.value.value;
      trace := trace + [ChatDelete(dst.channel, dst.ts)];
      r := client.chatDelete(dst.channel, dst.ts);
      if r.Fail? {
        return;
      }
      trace := trace + [StoreDelete(MessageKey(event.channel, event.previousMessage.ts))];
      r := db.DeleteTranslatedMessageReference(event.channel, event.previousMessage.ts);
    }

    method HandleMessageEdit(event: EditEvent, client: SlackClient) returns (r: Outcome)
      modifies this, db
      ensures var s := EditMessage(old(db.State()), event, client, llm);
        r == s.outcome && db.State() == s.table && trace == old(trace) + s.effects
    {
      if IsBotMessage(event.message) {
        return Pass;
      }
      var text := event.message.text;
      if text == Tombstone {
        r := HandleMessageDelete(DeleteEvent(event.channel, event.previousMessage), client);
        return;
      }
      trace := trace + [Detect(text)];
      var detected := llm.detectLanguage(text);
      if detected.Failure? {
        return Fail(detected.error);
      }
      trace := trace + [StoreGet(MessageKey(event.channel, event.message.ts))];
      var found := db.GetTranslatedMessageReference(event.channel, event.message.ts);
      if found.Failure? {
        return Fail(found.error);
      }
      if found.value.None? {
        return Fail(MissingClient);
      }
      r := SendReply(text, detected.value, found.value, EditedReplyText, client);
    }
  }
}
