# EncouragingAI-LINE webhook, modelled in Dafny

The bot is a LINE webhook that answers each text message with an
empathetic reply from a chat-completion model, and remembers each
user's recent conversation in Firestore. This project models the logic
between its external calls, and proves properties about it:

- **Conversation memory** (`Memory`). The `chat_memory` collection is a
  map from user id to that user's append-only log of
  `(timestamp, question, answer)` exchanges. `save_memory` appends one
  exchange. `load_recent_memory` runs the query: newest first, first
  `limit` (default 3), `(question, answer)` tuples, reversed. `Store` is
  the mutable collection. `LoadRecent` is the read as a function of one
  log.
- **Prompt assembly** (`PromptAssembly`). The loop builds the chat
  history: one user entry and one assistant entry per remembered
  exchange, then the new message. The system entry with the persona text
  goes in front.
- **Reply text** (`Text`). This is Python's `str.strip()` with no
  argument. It drops leading and trailing characters for which
  `str.isspace()` holds.
- **Turn pipeline** (`Webhook`). `callback` plus `handle_message`: check
  the signature, load history, build the prompt, complete, strip, reply,
  save. An exception at any step skips every later step.
  - The three services are inputs: `signatureValid`, `completion` (an
    `Outcome`: the returned text, or `Err` when the call raised or gave
    no content) and `replyDelivered`.
  - Each call made is recorded as an `Effect`, in order.
  - `CallbackRun` is the whole request as a function.
  - `Callback` and `HandleMessage` are the same steps as methods over a
    `Store`, proved equal to it.

The persona text and the model name are the constants of main.py:90 and
main.py:93 (`PromptAssembly.Persona`, `PromptAssembly.Model`,
`Webhook.Deployed`). The pipeline takes them as a `Config` parameter. Every
property is therefore proved for any persona, including the deployed one.

The clock reading `datetime.now(timezone.utc)` (main.py:45) is the
parameter `now`. `Store.Valid()` requires every log to be in timestamp
order. A save needs `now` to be no older than the user's newest exchange
(`CanAppend`).

## Model

| member | source | states |
|---|---|---|
| `Text.IsSpace` | main.py:100 | the characters `str.strip()` with no argument removes: exactly those for which Python's `str.isspace()` holds |
| `Text.TrimLeft` | main.py:100 | the result is no longer than the input; it is empty or starts with a non-space; it ends where the input ends |
| `Text.TrimRight` | main.py:100 | the result is no longer than the input; it is empty or ends with a non-space; it starts where the input starts |
| `Text.Strip` | main.py:100 | the reply text has no whitespace at either end |
| `Text.TrimLeftDropsSpace` | main.py:100 | what the left trim drops is a prefix made only of whitespace, and the rest is the input's suffix |
| `Text.TrimRightDropsSpace` | main.py:100 | what the right trim drops is a suffix made only of whitespace, and the rest is the input's prefix |
| `Text.StripKeepsCore` | main.py:100 | the stripped text is one contiguous piece of the completion, with only whitespace before and after it |
| `Text.TrimLeftSkips` | main.py:100 | the left trim of whitespace followed by text that starts with a non-space is exactly that text |
| `Text.TrimRightSkips` | main.py:100 | the right trim of text that ends with a non-space, followed by whitespace, is exactly that text |
| `Text.StripUnique` | main.py:100 | when a trimmed core is surrounded by whitespace only, stripping returns exactly that core, so strip is fully determined |
| `Text.StripIdempotent` | main.py:100 | stripping the reply text again changes nothing |
| `Memory.Reverse` | main.py:58 | `reversed` keeps the length |
| `Memory.ReverseAt` | main.py:58 | element `k` of the reversal is element `n-1-k` of the original |
| `Memory.ReverseIsPermutation` | main.py:58 | reversal keeps every element with its multiplicity |
| `Memory.NewestFirst` | main.py:55 | the query order keeps every exchange, and its first entry is the newest one written; `NewestFirstIsDescending` proves the order descending |
| `Memory.Pairs` | main.py:57 | one `(question, answer)` tuple per document read; `LoadRecentIsSuffix` proves which ones |
| `Memory.NewestFirstIsDescending` | main.py:55 | on a log written in timestamp order, the query order holds the same exchanges, by descending timestamp |
| `Memory.LoadRecent` | main.py:53-58 | a read returns exactly `min(limit, log length)` pairs, so never more than `limit` |
| `Memory.LoadRecentIsSuffix` | main.py:53-58 | a read returns the question/answer pairs of the newest `limit` exchanges, oldest first, in log order, none reordered or skipped |
| `Memory.LoadRecentEmpty` | main.py:53-58 | a user with no history gets the empty sequence, not an error |
| `Memory.RecentWindowAscending` | main.py:53-58 | the window a read returns is in ascending timestamp order |
| `Memory.LoadRecentAfterAppend` | main.py:44-58 | after one save, a read with limit `n+1` is the earlier read with limit `n` followed by the saved pair |
| `Memory.Appended` | main.py:46-51 | adding an exchange under a user extends that user's log by exactly that exchange at the end |
| `Memory.AppendedLeavesOthers` | main.py:46-47 | adding under one user leaves every other user's log unchanged |
| `Memory.AppendedWellOrdered` | main.py:45-51 | a save stamped no earlier than the user's newest exchange keeps every log in timestamp order |
| `Memory.Store.constructor` | main.py:42 | a new store is empty and valid |
| `Memory.Store.SaveMemory` | main.py:44-51 | `save_memory` appends one exchange `(now, question, answer)` to that user's log and changes nothing else; order is kept |
| `Memory.Store.LoadRecentMemory` | main.py:53-58 | `load_recent_memory` returns `LoadRecent` of the user's log and does not modify the store, so two reads with no save between them agree |
| `PromptAssembly.Turns` | main.py:81-84 | the loop yields two entries per remembered exchange |
| `PromptAssembly.TurnsAt` | main.py:82-84 | entry `2i` is `{user, question i}` and entry `2i+1` is `{assistant, answer i}` |
| `PromptAssembly.Prompt` | main.py:87-97 | the request has `2·|history| + 2` messages |
| `PromptAssembly.PromptAt` | main.py:82-97 | entry `1+2i` is `{user, history[i].question}` and entry `2+2i` is `{assistant, history[i].answer}` |
| `PromptAssembly.PromptShape` | main.py:81-97 | length `2n+2`; first the system entry with the persona; last the new user message; every exchange in between in order, none dropped |
| `PromptAssembly.PromptRoles` | main.py:81-97 | only entry 0 has the system role; every middle entry is a question (odd index) or an answer (even index) of the matching exchange |
| `PromptAssembly.AssembleMessages` | main.py:81-97 | the list-building loop produces exactly `Prompt(persona, history, userMsg)` |
| `Webhook.CallbackRun` | main.py:64-109 | a bad signature gives 400: no load, completion, reply or save. A text message first loads the history with limit 3, then requests the completion with the prompt built from it. A failed completion ends the trace after the load and the request: no reply and no save. A failed reply ends it after the reply: no save. A successful completion is sent as the reply with exactly its stripped text. Memory changes exactly when both completion and reply succeed. Then the trace ends with the save of one exchange `(message, stripped completion)`, and the store gains exactly that exchange. Every save comes right after the delivered reply of the same text. There is at most one reply per request |
| `Webhook.HandleMessageRun` | main.py:75-109 | `handle_message` never answers 400; it succeeds exactly when the completion and the reply both succeed; its first call loads the history with limit 3. The rest of what it promises is proved through `CallbackRun` |
| `Webhook.DeployedStatus` | main.py:64-72 | with the deployed persona and model, the status is 400 exactly on a bad signature, 200 exactly when the turn went through or the event has no handler, and 500 otherwise |
| `Webhook.SavedAnswerTrimmed` | main.py:100-109 | the answer stored in memory has no whitespace at either end |
| `Webhook.NextTurnRemembers` | main.py:76-109 | after a delivered turn, the same user's next window is the two newest earlier pairs followed by the new pair; no other user's memory changes |
| `Webhook.CallbackKeepsOrder` | main.py:44-51 | a request keeps every user's log in timestamp order |
| `Webhook.FreshUserTurn` | main.py:75-109 | a new user says "hello" and the completion is "Hi there\n". The prompt is persona plus message, "Hi there" is sent, and the store holds exactly that one exchange |
| `Webhook.ReturningUserPrompt` | main.py:79-97 | with at least three stored exchanges, the prompt is the persona, the newest three as question/answer in order, then the new message |
| `Webhook.HandleMessage` | main.py:75-109 | `handle_message` over the store does what `HandleMessageRun` describes, step by step, and keeps the store valid |
| `Webhook.Callback` | main.py:64-72 | `callback` over the store answers, calls and updates exactly as `CallbackRun` describes |

## Left out

- Flask setup, the route and `app.run()` (main.py:15, main.py:63, main.py:111-112): HTTP plumbing. The answers are modelled as `Response` values: "OK" (200), `abort(400)`, and 500 for an escaped exception.
- `load_dotenv` and the environment reads (main.py:14, main.py:18-20): process configuration.
- `restore_firebase_config` and the Firebase initialisation (main.py:25-42): credential decoding and file I/O. It also calls `base64` without importing it (main.py:28), so it would fail whenever `FIREBASE_CONFIG_B64` is set to a non-empty value.
- The signature HMAC: it runs inside the `linebot` `WebhookHandler`, whose code is not part of this model. Verification is the boolean `signatureValid`.
- Parsing the body into events: this is also inside `WebhookHandler`. The model takes one already-parsed event per request. A body with several events, where an exception in one skips the rest, is not modelled.
- The OpenAI and LINE clients: the completion call is the `Outcome` input `completion`, and the reply call is the boolean `replyDelivered`.
- Firestore failures: the collection is the in-memory `Store`. A Firestore exception on the read or on the save is not modelled; store calls always succeed.
- Concurrency: the code makes each external call once and has no retries, backoff, timeouts or per-user locking, so the model has none either. Two requests running at the same time are not modelled.
- Memory.NewestFirst: exchanges with equal timestamps are ordered latest-written first. Firestore's own order for ties is not modelled.
- Memory.RecentWindowAscending: states non-decreasing timestamps, not strictly ascending. Two saves can read the same clock value, so the code cannot promise strict order.
- The persona and the model name are a `Config` parameter rather than built into the pipeline. Every property therefore holds for any persona, including the 52-character text of main.py:90 (`Webhook.Deployed`).
