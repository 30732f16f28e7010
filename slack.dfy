/** The parts of the Slack platform the bot reads and calls: the message
    events it subscribes to, the Block Kit blocks of its reply, and the Web API
    calls, each a parameter that may raise. Every call the handlers attempt is
    recorded as an `Effect`. */
module Slack {
  import opened Common
  import Sqlite
  import Llm

  /** The fields of a Slack message dict that the handlers read. A missing
      "subtype" or "bot_id", or a "bot_id" of None, is `None`; a missing
      "text" is the empty string. */
  datatype Message = Message(subtype: Option<string>, botId: Option<string>, ts: string, text: string)

  /** A `message` event without subtype: the message's own fields stand at the
      top level of the event, beside its channel. */
  datatype NewMessageEvent = NewMessageEvent(channel: string, message: Message)

  /** A `message_changed` event: the edited message and its previous version. */
  datatype EditEvent = EditEvent(channel: string, message: Message, previousMessage: Message)

  /** A `message_deleted` event: the message as it was before deletion. */
  datatype DeleteEvent = DeleteEvent(channel: string, previousMessage: Message)

  /** A Block Kit text object `{"type": kind, "text": text}`. */
  datatype TextObject = TextObject(kind: string, text: string)

  /** A Block Kit block: `{"type": "section", "fields": [...]}` or
      `{"type": "divider"}`. */
  datatype Block = Section(fields: seq<TextObject>) | Divider

  /** The "type" key of a block. */
  function BlockType(b: Block): (kind: string) {
    match b
    case Section(_) => "section"
    case Divider => "divider"
  }

  /** A message payload `{"blocks": [...]}`. */
  datatype SlackMessage = SlackMessage(blocks: seq<Block>)

  /** An external call the handlers attempt, in the order they attempt it. */
  datatype Effect =
    | ChatPost(channel: string, threadTs: string, text: string)       // say / chat_postMessage
    | ChatUpdate(channel: string, ts: string, text: string, blocks: seq<Block>)
    | ChatDelete(channel: string, ts: string)
    | Detect(text: string)                                             // detect_language
    | Translate(request: Llm.TranslationRequest)                       // translate
    | StoreGet(src: Sqlite.MessageKey)                                 // get_translated_message_reference
    | StoreSave(src: Sqlite.MessageKey, dst: Sqlite.MessageKey)        // save_translated_message_reference
    | StoreDelete(src: Sqlite.MessageKey)                              // delete_translated_message_reference

  /** `say(channel=, thread_ts=, text=)`: the posted message's channel and ts,
      a falsy response (`None`), or an exception. */
  type Say = (string, string, string) -> Result<Option<Sqlite.MessageKey>>

  /** The Web API client the handlers receive. */
  datatype SlackClient = SlackClient(
    /** chat_postMessage(channel=, text=, thread_ts=) */
    chatPostMessage: (string, string, string) -> Result<Option<Sqlite.MessageKey>>,
    /** chat_update(channel=, ts=, text=, blocks=) */
    chatUpdate: (string, string, string, seq<Block>) -> Outcome,
    /** chat_delete(channel=, ts=) */
    chatDelete: (string, string) -> Outcome)
}
