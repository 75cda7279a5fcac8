# Sakura LINE relay — a Dafny model

This project models the core of the "sakura" LINE bot (`line-ai-bot/main.py`).
The bot runs as a Cloud Function. It receives LINE webhook requests and answers
each text message with a reply generated by Gemini in a fixed persona. It keeps
a per-user conversation history in a process-wide dictionary. The history grows
by one line with each message after the first.

The model has four parts, one module each:

- `Startup` (`startup.dfy`): when the module loads, it refuses to start unless
  the channel secret, the channel access token and the Gemini API key are all
  set and non-empty. It then picks the model: `models/gemini-1.5-pro` when the
  backend lists it, else `models/gemini-2.0-pro-exp`, else it refuses to start.
- `Webhook` (`webhook.dfy`): the HTTP answer of the entry point. A non-POST
  request gets 405. A POST whose handling ends in a signature failure gets 400.
  One that ends in a LINE API error gets 500. A POST whose handling completes
  without an exception gets "OK", 200.
- `Conversation` (`conversation.dfy`): the history as values. It covers the two
  line formats (`ユーザー: <message>`, `さくら: <reply>`), the eviction of the
  oldest line, the newline join that becomes the prompt context, and the choice
  of the reply from the outcome of the generation call. It also states what a
  user's history holds after any number of messages.
- `Relay` (`relay.dfy`): the class `Bot`. Its field `sessionData` is the table
  from user id to history lines. Its method `HandleMessage` does what
  `handle_message` does, in the same order. It creates the user's entry if
  needed, evicts at most one line, and appends the user's line. It then builds
  the prompt from the joined history, chooses the reply and appends the
  assistant's line. Last, it attempts delivery and swallows a delivery error.

External calls are inputs, not behaviour. The Gemini call becomes
`GenOutcome = Text(text) | NoText | Raised`. The outcome of the LINE reply call
becomes the boolean `deliveryRaised`. The outcome of the SDK's signature check
and event handling becomes a `HandleOutcome`. The model listing and the
environment lookups are start-up inputs. `HandleMessage` returns the prompt it
would send to Gemini and the reply it would send to LINE.

The history has **no** fixed cap. The comments at `line-ai-bot/main.py:66` and
`:73` describe a history limited to two rounds of conversation. The code checks
the length once, before two appends. It evicts at most one line per message
(none on the first) and adds two. The model follows the code.
`Conversation.HistoryLength` is what rules out any fixed cap, whether two lines
or two rounds of four lines: after n messages the history holds n + 1 lines.
`Conversation.ReplayKeepsAllButOldest` states the contents exactly: after n
messages the history is the full transcript minus its oldest n - 1 lines.

## Model

| member | source | states |
|---|---|---|
| `Startup.CheckEnvironment` | line-ai-bot/main.py:9-15 | Start-up goes on exactly when all three credentials are present and non-empty. An absent and an empty value are refused alike. On success the three values are kept unchanged. |
| `Startup.SelectModel` | line-ai-bot/main.py:20-29 | A model is chosen exactly when one of the two preferred names is listed. The chosen name is listed and is one of the two. `gemini-1.5-pro` wins whenever it is listed. Otherwise the error carries the listing. |
| `Startup.SelectModelIgnoresListingOrder` | line-ai-bot/main.py:24-29 | Two listings with the same names, in any order and with any repetitions, lead to the same choice. |
| `Startup.Start` | line-ai-bot/main.py:9-31 | The credential guard runs before the model choice. A missing credential is reported whatever the listing holds. With all credentials set and neither preferred model listed, the error is `NoSuitableModel` with the listing. Start-up succeeds exactly when both steps do. It then keeps the credentials and a listed model that is one of the two preferred names, `gemini-1.5-pro` whenever it is listed. |
| `Webhook.Respond` | line-ai-bot/main.py:39-55 | The status is always one of 405, 400, 500 and 200. 405 exactly for non-POST. 400 exactly for a POST with an invalid signature. 500 exactly for a POST whose handling raised a LINE API error. 200 exactly for a POST handled without an exception. Each status carries its own message: "Only POST requests are allowed", "Invalid signature", "LINE API error" and "OK". |
| `Webhook.NonPostNeverReachesHandler` | line-ai-bot/main.py:41-42 | For a non-POST request the answer does not depend on what handling the body would have produced: it is always 405. |
| `Webhook.StatusDeterminesBody` | line-ai-bot/main.py:41-55 | Two responses with the same status carry the same message. |
| `Conversation.ParseFormattedLines` | line-ai-bot/main.py:71-102 | The user line and the assistant line are told apart by their labels, and each gives back its whole text. |
| `Conversation.SelectReply` | line-ai-bot/main.py:94-99 | The reply is the generated text when there is one. A response without text gives "エラーが発生しました". A raised generation gives "ちょっと今忙しいからあとでねー". A fallback reply is never empty. |
| `Conversation.Evict` | line-ai-bot/main.py:66-68 | When the history has two or more lines, exactly the oldest line is removed and the rest keep their order. A shorter history is left as it is. |
| `Conversation.NextHistory` | line-ai-bot/main.py:67-102 | After one message the history grows from 0 to 2 lines, or from L to L + 1 when L >= 2. It is the evicted history followed by the user's line and then the assistant's line. |
| `Conversation.NextHistorySteps` | line-ai-bot/main.py:71-102 | Appending the user's line and then the assistant's line, one after the other, gives the history after the message. |
| `Conversation.PromptContext` | line-ai-bot/main.py:71-74 | The prompt context is the join of the kept history, a newline, and the new user line last. For a user without kept history it is that line alone. |
| `Conversation.JoinLength` | line-ai-bot/main.py:74 | The join of n >= 1 lines is as long as all the lines plus n - 1 newlines. |
| `Conversation.JoinPlacesLines` | line-ai-bot/main.py:74 | Every line, even one that contains newlines, occurs whole in the join at its offset: the total length of the earlier lines plus one newline each. A newline follows every line but the last. |
| `Conversation.SplitJoin` | line-ai-bot/main.py:74 | The newline join loses nothing: lines without newlines come back, in order, when the join is split on newlines. |
| `Conversation.ContextSplitsIntoLines` | line-ai-bot/main.py:67-74 | When no line contains a newline, the context splits into exactly the kept history followed by the new user line. |
| `Conversation.ReplayKeepsAllButOldest` | line-ai-bot/main.py:62-102 | After n >= 1 messages, the history is the transcript of all n exchanges without only its oldest n - 1 lines. |
| `Conversation.HistoryLength` | line-ai-bot/main.py:66-102 | After n >= 1 messages the history holds n + 1 lines, so no fixed cap holds, whether two lines or two rounds. |
| `Conversation.HistoryEndsWithLatestExchange` | line-ai-bot/main.py:71-102 | The history always ends with the latest message's user line followed by its assistant line. |
| `Conversation.HistoryNotCapped` | line-ai-bot/main.py:66-68 | From the second message on, the history has more than two lines. This alone rules out only a cap of two lines; `HistoryLength` rules out every fixed cap. |
| `Relay.PersonaPrompt` | line-ai-bot/main.py:77-92 | The prompt embeds the history string and, after it, the new message, each whole and at a fixed place in the template. |
| `Relay.Bot.constructor` | line-ai-bot/main.py:36-37 | The table starts empty. |
| `Relay.Bot.HandleMessage` | line-ai-bot/main.py:58-111 | Only the sender's entry changes; it becomes the next history after the message and its reply. A first-time sender gets exactly [user line, assistant line]. The prompt is built from the history after the user line and before the assistant line. The reply is the selected reply, addressed by the event's reply token. The history is updated whatever the delivery outcome, and a delivery error does not escape. The invariant linking the table to the exchanges is kept. |
| `Relay.ConsistentAfterExchange` | line-ai-bot/main.py:58-102 | Recording one exchange for one user keeps every stored history equal to the replay of that user's exchanges. |
| `Relay.StoredHistoryIsTranscriptSuffix` | line-ai-bot/main.py:62-102 | In any reachable state, a user's stored history is their transcript minus its oldest n - 1 lines, so it holds n + 1 lines. |
| `Relay.HistoryAfterTwoMessages` | line-ai-bot/main.py:63-102 | On a fresh bot, two messages from one user leave three lines: the first reply, the second message and the second reply. |

## Left out

- `line-ai-bot/secret_setup.py`: it only calls Google Secret Manager and prints; it has no decision logic.
- The LINE SDK: signature (HMAC) checking, event parsing and the dispatch of events to `handle_message` (`line-ai-bot/main.py:34`, `:48`, `:57`). This code is not visible. Its outcome is the `HandleOutcome` input of `Webhook.Respond`. The model does not connect `HandleMessage` to `Respond`.
- The Gemini client (`genai.configure`, `list_models`, `GenerativeModel`, `generate_content`) and `line_bot_api.reply_message`. These are network calls. Only their outcomes are modelled, as inputs.
- Webhook.Respond: an exception other than `InvalidSignatureError` or `LineBotApiError` raised while the SDK handles the body escapes `webhook` without a response. Such exceptions are not among the `HandleOutcome` cases, so the model gives no answer for them.
- Startup.Start: a raising `genai.configure`, `genai.list_models` or `genai.GenerativeModel` call (`line-ai-bot/main.py:18`, `:21`, `:31`) also ends start-up, even with all credentials set and a preferred model available. The model does not represent that failure: `available` stands only for a listing that succeeded.
- Relay.Bot.HandleMessage: `deliveryRaised` stands for a `LineBotApiError` from the reply call, the only error the code catches there. Any other exception from that call would escape the handler in the source. The model does not represent that case.
- The persona wording of the prompt (`line-ai-bot/main.py:78-91`). `Relay.PersonaPrompt` uses placeholder text and keeps only where the history and the message are placed.
- `print` logging and `os.getenv`: these are I/O. Environment values are `Option<string>` inputs.
- Concurrency on the session table: the code takes no locks. Calls are modelled one at a time.
- A proactive-message scheduler, a time-of-day lottery or a delayed task queue: no such code is in `line-ai-bot/main.py`.
