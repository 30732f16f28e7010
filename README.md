# Slack translation bot: message-reference reconciliation

This project models the core of a Slack bot that translates every message in a
channel and posts the translation as a threaded reply. The bot keeps that
reply in step with the original:

- A new message gets a placeholder reply. The reference from the source
  message `(channel, ts)` to the reply `(channel, ts)` is stored. The
  placeholder is then overwritten with the flag-prefixed original text, a
  divider and one flag-prefixed translation per target language.
- An edit overwrites the reply in place.
- A delete removes the reply and then the reference.
- Messages from bots are ignored.

The model is written in Dafny. One module covers each source file:

- `Language` and `Util` are the two copies of the language policy and the flag lookup.
- `Sqlite` is the `message_map` table, as a class over a map. Its primary key is the source pair.
- `Llm` is the provider interface. It also holds the order-preserving gather both providers use.
- `Ollama` and `OpenAI` are the two providers. The HTTP and API calls are function parameters.
- `Slack` holds the event shapes, the Block Kit blocks, the Web API calls as parameters, and the
  `Effect` trace entries.
- `SlackBot` holds the handlers of slack/bot.py twice. Each handler is a pure function returning a
  `Step`: the outcome (returned, or the exception raised), the store afterwards, and the external
  calls attempted, in order, store lookups and writes included. The class `TranslationBot` does
  the same steps imperatively, on the shared store object and its trace. Each method's `ensures`
  ties its result to the function.
- `SlackBotProperties` proves the handlers' promises about those functions.
- `Text` is Python's `str.strip()`.
- `Common` holds the Option/Result/Outcome types and the Python exceptions.

A Python exception is a `Fail(error)` outcome. Where the code would raise, the model raises too.
This means three things:

- A placeholder post that returns `None` saves nothing. Detection and translation still run, and
  then `response["channel"]` raises a `TypeError` (slack/bot.py:79-84).
- An edit of a message with no reference reaches the fallback call at slack/bot.py:157-162, which
  raises a `TypeError`. The call lacks the required `client` argument. (Its lambda would also reject
  the `channel=` keyword passed at slack/bot.py:48.) `SlackBot.EditMessage` models this as written.
  `SlackBot.EditMessageIntended` models the re-create that the log line at slack/bot.py:153
  announces. See Findings.
- If `chat_delete` raises, the exception propagates, so the reference row is not removed. This
  follows the code (slack/bot.py:195-198): nothing there catches the error before the row
  removal.

middleware/slack_event_handler.py is a second copy of the three handlers and the formatter. Apart
from names, its code matches slack/bot.py line for line:

- its store methods are `insert/select/delete_message_map`, with the same map semantics;
- it takes `find_target_languages` from core/util.py.

`Util.AgreesWithLanguage` proves that the policy it uses is the same, so the request it builds for a
detected language is the one slack/bot.py builds. So `SlackBot`'s members model its handlers too.

## Model

| member | source | states |
|---|---|---|
| `Language.FindTargetLanguages` | core/utils/language.py:4-23 | always two distinct known languages; a known source is never its own target; any other input, the empty string included, gives `["en","ko"]` |
| `Language.TargetsAreTheOtherKnownLanguages` | core/utils/language.py:14-21 | for ko, en and th, both other known languages are targets |
| `Language.TargetLanguagesTable` | core/utils/language.py:14-23 | the literal lists: ko→[th,en], en→[ko,th], th→[ko,en], "" →[en,ko] |
| `Language.FindNationalFlag` | core/utils/language.py:26-45 | the globe emoji is returned exactly for codes other than ko, en, th |
| `Language.NationalFlagTable` | core/utils/language.py:36-45 | ko→:flag-kr:, en→:flag-us:, th→:flag-th:, other→:globe_with_meridians: |
| `Util.FindTargetLanguages` | core/util.py:4-25 | two distinct targets, never the known source itself, `["en","ko"]` for anything unrecognised |
| `Util.FindNationalFlag` | core/util.py:28-49 | the globe fallback exactly for unknown codes |
| `Util.AgreesWithLanguage` | core/util.py:4-49 | both functions equal the core/utils/language.py copies on every input |
| `Sqlite.SQLiteDatabase.constructor` | factory.py:23-25 | `SQLiteDatabase()` leaves the file as it is: the object starts from the file's existing state, earlier rows included |
| `Sqlite.Initialized` | db/sqlite.py:19-29 | afterwards the table exists; an existing table keeps its rows, a new one is empty |
| `Sqlite.Select` | db/sqlite.py:52-59 | fails with OperationalError exactly when the table is missing; otherwise the key's destination when it has a row, and None when it has none |
| `Sqlite.Insert` | db/sqlite.py:73-79 | succeeds exactly when the table exists and the key has no row; a missing table gives OperationalError, a present key the primary-key IntegrityError; a refused insert changes nothing; a successful one adds just this key, with its destination, and keeps every other row |
| `Sqlite.Remove` | db/sqlite.py:91-97 | succeeds exactly when the table exists; then the key has no row, every other row is kept, and nothing else is added |
| `Sqlite.SQLiteDatabase.Initialize` | db/sqlite.py:13-30 | creates an empty table if there is none; otherwise leaves the rows unchanged |
| `Sqlite.SQLiteDatabase.GetTranslatedMessageReference` | db/sqlite.py:38-59 | returns the stored destination, or None for an absent key; raises when the table is missing |
| `Sqlite.SQLiteDatabase.SaveTranslatedMessageReference` | db/sqlite.py:61-79 | succeeds exactly when the table exists and the source key is absent, then maps it to the destination; a failure changes nothing |
| `Sqlite.SQLiteDatabase.DeleteTranslatedMessageReference` | db/sqlite.py:81-97 | removes the key, present or not; raises only when the table is missing |
| `Sqlite.InitializeIdempotent` | db/sqlite.py:19-29 | initialize twice is initialize once; a fresh file starts with an empty table |
| `Sqlite.SaveThenGet` | db/sqlite.py:73-79 | after a save of an absent key, get returns the saved destination |
| `Sqlite.DuplicateSaveFails` | db/sqlite.py:26 | a second save of the same source key raises IntegrityError and leaves the first value |
| `Sqlite.DeleteThenGet` | db/sqlite.py:91-97 | after delete, get returns None; deleting again changes nothing and is no error |
| `Sqlite.WritesAreLocal` | db/sqlite.py:73-97 | save and delete leave every other key's lookup unchanged |
| `Sqlite.NeverSavedNotFound` | db/sqlite.py:38-97 | after any history of saves and deletes that never names a key, a lookup of that key finds nothing |
| `Text.Strip` | llm/ollama.py:116 | the result has no white space at either end and is no longer than the input |
| `Text.StripIsTrimmedSlice` | llm/ollama.py:116 | `strip()` returns a contiguous piece of its input that has no white space at either end; everything it removed is white space |
| `Text.LStrip` | llm/ollama.py:116 | the result is a suffix of the input that does not start with white space, and every character removed is white space |
| `Text.RStrip` | llm/ollama.py:116 | the result is a prefix of the input that does not end with white space, and every character removed is white space |
| `Text.StripTrimmed` | llm/openai.py:57 | a text with no white space at either end is unchanged by stripping |
| `Text.StripIdempotent` | llm/openai.py:57 | stripping twice is stripping once |
| `Llm.TranslateLineLayout` | llm/ollama.py:71-72 | the language-pair line is the fixed lead "Translate the following text from " after a newline and indentation, then the source language, and it ends with the target language and a colon |
| `Llm.Gather` | llm/ollama.py:68-85 | one result per target, in target order, each the task's own result; a failure exactly when some task fails, with that task's error |
| `Ollama.New` | llm/ollama.py:23-40 | ValueError when the host or the model name is None (host checked first); otherwise both fields set |
| `Ollama.Query` | llm/ollama.py:91-116 | posts to `<host>/api/generate` with stream false; an exception from the post propagates; a non-200 status raises "Failed to query Ollama: " + the body; otherwise the stripped "response" field |
| `Ollama.DetectLanguage` | llm/ollama.py:42-52 | the stripped answer to the detection prompt on a 200 reply; "Failed to query Ollama: …" on any other status; the post's own exception when it raises |
| `Ollama.TranslateOne` | llm/ollama.py:69-80 | one task: flag(target) + " " + the query's answer for that target's language-pair line, or the query's error |
| `Ollama.Translate` | llm/ollama.py:54-89 | original text is flag(source) + " " + the unstripped text; exactly one entry per target, in order, each flag(target) + " " + that target's query result; fails exactly when a query fails, with the error of a failing query |
| `Ollama.AsLanguageModel` | llm/ollama.py:17-89 | the provider keeps one translation per requested target |
| `OpenAI.New` | llm/openai.py:23-40 | ValueError when the API key or the model name is None (key checked first); otherwise both fields set |
| `OpenAI.DetectLanguage` | llm/openai.py:42-57 | the stripped, trimmed model output; the client's exception when it raises |
| `OpenAI.TranslateInputLayout` | llm/openai.py:81-82 | the input of a translation call is the language-pair line, a newline, and then the user's text unchanged |
| `OpenAI.TranslateOne` | llm/openai.py:74-86 | one task: flag(target) + " " + the stripped output for that target's input, or the client's error |
| `OpenAI.Translate` | llm/openai.py:59-95 | original text is flag(source) + " " + the stripped text; exactly one entry per target, in order, each flag(target) + " " + stripped output for an input naming source, target and text; fails exactly when a call fails, with the error of a failing call |
| `OpenAI.AsLanguageModel` | llm/openai.py:17-95 | the provider keeps one translation per requested target |
| `SlackBot.IsBotMessage` | slack/bot.py:201-211 | no contract: the definition (subtype "bot_message", or a "bot_id" that is not None) that `SlackBotProperties.BotMessagesAreIgnored` relies on |
| `SlackBot.SectionBlock` | slack/bot.py:236-241 | a block of type "section" whose only field is a mrkdwn text object holding the text |
| `SlackBot.Sections` | slack/bot.py:230-232 | one section block per text, same order |
| `SlackBot.FormatTranslation` | slack/bot.py:214-233 | 2 + n blocks: the original's section, the divider, then the n translations' sections in order |
| `SlackBotProperties.SectionTextsOfSections` | slack/bot.py:230-232 | the texts read back from the section blocks are the texts they were made from, in order |
| `SlackBotProperties.FormatTranslationRoundTrip` | slack/bot.py:226-233 | reading the sections back gives the original followed by the translations |
| `SlackBot.Reply` | slack/bot.py:63-84 | translating and updating never touch the store; the first call is the translation into the policy's targets; a reply that succeeds had a placeholder and a translation, and its only other call is the update of that placeholder with the formatted translation |
| `SlackBot.Create` | slack/bot.py:43-84 | the first call is the placeholder post in the source's thread; the store afterwards is the insert of the posted reply when the post returned one, and unchanged otherwise |
| `SlackBot.DetectThenReply` | slack/bot.py:60-84 | after the placeholder, the next call is detection of the text, and the store is not touched again |
| `SlackBot.NewMessage` | slack/bot.py:30-84 | the handler makes no call exactly when the message is a bot's; it never removes or retargets a reference, and adds one only for its own source message |
| `SlackBot.DeleteMessage` | slack/bot.py:165-198 | a user's delete first looks the reference up; the store is unchanged or has the source's row removed, and a change comes only with a successful run whose three calls are the lookup, a chat_delete and then the store delete of the source |
| `SlackBot.EditMessage` | slack/bot.py:87-162 | the store is unchanged or, through the tombstone path, has the previous message's row removed; a non-tombstone user edit leaves the store unchanged, starts with detection and, once detection succeeds, looks up the edited message's reference next |
| `SlackBot.EditMessageIntended` | slack/bot.py:152-162 | as intended, an edit may add a reference only for the edited message and never retargets an existing one |
| `SlackBot.TranslationBot.constructor` | slack/bot.py:23-24 | the bot holds the module-level `LARGE_LANGUAGE_MODEL` and `DATABASE` it is given, and starts with an empty trace |
| `SlackBot.TranslationBot.SendReply` | slack/bot.py:63-84 | translate into the policy's targets, then update the given reply; raises on a missing reply |
| `SlackBot.TranslationBot.DetectAndReply` | slack/bot.py:60-84 | the outcome and the appended calls are those of `SlackBot.DetectThenReply`, and the store is outside its frame |
| `SlackBot.TranslationBot.CreateReply` | slack/bot.py:43-84 | the create steps on the shared store and the trace, as specified by `SlackBot.Create` |
| `SlackBot.TranslationBot.HandleNewMessage` | slack/bot.py:30-84 | the new store, the outcome and the appended calls are those of `SlackBot.NewMessage` |
| `SlackBot.TranslationBot.HandleMessageEdit` | slack/bot.py:87-162 | the new store, the outcome and the appended calls are those of `SlackBot.EditMessage` |
| `SlackBot.TranslationBot.HandleMessageDelete` | slack/bot.py:165-198 | the new store, the outcome and the appended calls are those of `SlackBot.DeleteMessage` |
| `SlackBotProperties.BotMessagesAreIgnored` | slack/bot.py:39-41 | a bot message makes each of the three handlers do nothing: no call, no store change, no error |
| `SlackBotProperties.PlaceholderComesFirst` | slack/bot.py:48-50 | the first call is the ":hourglass_flowing_sand: Translating..." post, threaded under the source ts |
| `SlackBotProperties.NewMessageStoresOnlyThePostedReply` | slack/bot.py:48-58 | the store changes only when the post returned a message, and then only by mapping the source key to it |
| `SlackBotProperties.NewMessageSavesBeforeTranslating` | slack/bot.py:48-60 | with a response, the second call is the save and detection comes after it; a failed save stops the handler first |
| `SlackBotProperties.NewMessageKeepsReferenceOnLaterFailure` | slack/bot.py:51-84 | once saved, the reference stays whatever detection, translation or the update do |
| `SlackBotProperties.NewMessageWithoutResponseRaises` | slack/bot.py:79-84 | a post returning None saves nothing; detection and translation still run; the handler then raises TypeError without updating |
| `SlackBotProperties.NewMessageTranslates` | slack/bot.py:43-84 | when the post returns a message and detection and translation succeed: the exact call sequence post, save, detect, translate, update with "Translated message..."; the store gains exactly the new reference; the outcome is chat_update's |
| `SlackBotProperties.DetectKeepsTrimmedAnswer` | llm/ollama.py:42-52 | for any text and body text, a 200 reply to the detection prompt whose answer has no white space at its ends is the detected language unchanged |
| `SlackBotProperties.QueryKeepsTrimmedAnswer` | llm/ollama.py:105-116 | for any prompt, prompt suffix, user input and body text, a 200 reply whose answer has no white space at its ends is the query's result unchanged |
| `SlackBotProperties.TranslateIntoTwo` | llm/ollama.py:65-89 | with two targets whose queries answer `a` and `b`, the response is the flagged original and [flag(t0) + " " + a, flag(t1) + " " + b] |
| `SlackBotProperties.ExampleTranslation` | llm/ollama.py:54-89 | raw answers "안녕" and "สวัสดี" become ":flag-kr: 안녕" and ":flag-th: สวัสดี" behind ":flag-us: Hello" |
| `SlackBotProperties.ExampleProvider` | llm/ollama.py:42-89 | over that server the Ollama provider detects "Hello" as "en" and translates it to ":flag-us: Hello" with [":flag-kr: 안녕", ":flag-th: สวัสดี"] |
| `SlackBotProperties.HelloCreate` | slack/bot.py:43-84 | given a provider that detects "en" and returns those flagged texts, "Hello" on a fresh store is replied to with the four blocks and the store maps the source to the placeholder |
| `SlackBotProperties.NewMessageExample` | slack/bot.py:43-84 | with an Ollama server answering "en", "안녕" and "สวัสดี", "Hello" on a fresh store is replied to with the four blocks flag-us original, divider, flag-kr, flag-th, and the store maps the source to the placeholder |
| `SlackBotProperties.ReplyHasFourBlocks` | slack/bot.py:63-76 | with a provider that keeps one translation per target, the reply has four blocks |
| `SlackBotProperties.TombstoneEditIsDelete` | slack/bot.py:106-109 | the text "This message was deleted." makes the edit the delete handler on the previous message, with no model call |
| `SlackBotProperties.EditWithReferenceUpdatesInPlace` | slack/bot.py:113-150 | with a reference: store unchanged, nothing posted or saved, and the reply updated with the new translation |
| `SlackBotProperties.EditWithoutReferenceRaises` | slack/bot.py:113-162 | as written: without a reference the handler raises TypeError after detection and the lookup, with no other call |
| `SlackBotProperties.EditNeverAddsReferences` | slack/bot.py:96-162 | an edit never adds or retargets a reference |
| `SlackBotProperties.EditWithoutReferenceRecreates` | slack/bot.py:152-162 | as intended: without a reference, detection and the lookup are followed by the full create flow for the edited message, placeholder post first; that post is `chat_postMessage` with channel, text and thread by keyword (lines 159-161), so when it raises the handler raises the same error after exactly those three calls |
| `SlackBotProperties.IntendedEditAgreesElsewhere` | slack/bot.py:96-162 | the intended and the written edit handler agree except where the written one raises for the missing `client` |
| `SlackBotProperties.DeleteOnlyDeletes` | slack/bot.py:165-198 | the delete handler never posts, updates, saves or calls the model |
| `SlackBotProperties.DeleteThenUnmap` | slack/bot.py:182-198 | with a reference: the lookup, chat_delete on the destination, then removal of the key; a later lookup finds nothing |
| `SlackBotProperties.DeleteFailureKeepsReference` | slack/bot.py:182-198 | if chat_delete raises, the reference row stays; the calls are the lookup and the chat_delete |
| `SlackBotProperties.DeleteWithoutReferenceIsSilent` | slack/bot.py:174-188 | without a reference, a user's delete makes the lookup and nothing else: no Slack call, no store write, no error |

## Findings

| source | as written | input that shows it | evidently intended | confidence | as-written member | corrected member |
|---|---|---|---|---|---|---|
| slack/bot.py:152-162 | the fallback calls `handle_new_message(new_event, lambda _text, thread_ts: ...)` without the required `client` argument, so it raises TypeError | an edit event, from a user, of a message with no stored reference, whose text is not the tombstone and whose language detection succeeds, on an initialised table | re-create the translation as for a new message ("handling as new message", slack/bot.py:153) | high; not executed | `SlackBotProperties.EditWithoutReferenceRaises` | `SlackBotProperties.EditWithoutReferenceRecreates` |

The same defect is at middleware/slack_event_handler.py:160-165.

## Left out

- Slack transport, `say`, `chat_update`, `chat_delete`, `chat_postMessage`, `requests.post` and the
  OpenAI client: these are function parameters with arbitrary results. Which of them raise, and what
  they return, is whatever those parameters say.
- The concurrency of `asyncio.gather` / `asyncio.to_thread`: a sequential map stands in, in target
  order. When several tasks fail, the model reports the first failure in target order. gather reports
  the first to fail in time.
- The text of the prompt constants in llm/prompts/translation.py: the `Instructions` datatype
  names them. The language-pair line that both providers append is modelled exactly.
- `response.json()` parsing in `__query_ollama`: the reply's "response" field is given directly. A
  reply without it (a KeyError) is not modelled.
- Event fields other than those read. A missing "message" or "previous_message" is read as an empty
  dict (slack/bot.py:96, 174, 179), so its "ts" is None; a missing "channel" or "ts" is None too.
  Such a None key is not modelled: keys are always strings. A missing "text" is the empty string.
- The bot test on the copied event in the intended fallback: the copied event has subtype
  "message_changed", so it is treated as a user's message. A top-level bot_id on an edit event is
  not modelled.
- The SQL engine, connections and commits: only the table's map semantics are modelled.
- factory.py wiring: `SQLiteDatabase` implements `get/save/delete_translated_message_reference`.
  The middleware calls `insert/select/delete_message_map`. The model gives the middleware a store
  with that interface's map semantics.
- Logging, config.py, main.py (bootstrap and socket mode), and the abstract interfaces of
  core/db.py, core/llm.py and core/models/providers.py: these serve only as the shapes of `Llm`
  and `Sqlite`.
- The handlers of middleware/slack_event_handler.py (`handle_message`, `handle_message_changed`,
  `handle_message_deleted`) and its `__is_bot_message`, `__format_translation_as_slack_message` and
  `__section_block` have no members of their own. They match slack/bot.py's apart from the names
  above, so the `SlackBot` members model them.
