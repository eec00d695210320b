# Session state machine of the Mehrnaz chat bot, in Dafny

The bot keeps a small amount of per-user state in four module-level tables
(`main.py`): the timestamps of admitted messages, a "report waiting" flag, a
"support waiting" flag, and the chat history. Two handlers change them:

- the **button handler** raises the report or support flag;
- the **message handler** first applies a sliding-window rate limiter: a
  message is refused while 5 or more of the user's admitted messages from
  the last 10 seconds remain on record. Then it forwards the
  message as a report if the report flag is raised. Otherwise it forwards
  it as a support payment if the support flag is raised. Otherwise it runs
  a chat turn: it sends the persona prompt, the history and the new text
  to the completion service, appends the (user, assistant) pair to the
  history and keeps only the newest 10 entries.

The project models exactly this core:

- `rate_limit.dfy` (module `RateLimit`): the window filter `Prune`, the
  admission test and lemmas about pruning.
- `chat.dfy` (module `Chat`): history entries and the `[-10:]` truncation
  (`Recent`), the request list sent to the completion service (`Request`),
  and the "whole exchanges" shape of history (`Paired`).
- `session.dfy` (module `Session`): the four tables as one value (`Store`)
  and the two handlers as transition functions (`Press`, `Deliver`). It
  also holds traces of updates (`Run`) and the lemmas that state the
  handlers' rules.
- `session_store.dfy` (module `Bot`): the tables as the fields of a class
  `SessionStore` whose methods update them in place, in the handlers' own
  order. Each handler method (`Button`, `Message`) is proved to produce
  exactly the transition of `Press` or `Deliver`, and to keep the store
  invariant.

The completion service is a parameter `complete: seq<Entry> -> string`,
applied to the assembled request. Its fallback apology is just one more
value it may return, and it is stored in history like any other reply.

Quirks of the code that the model keeps:

- Both flags can be raised at once. The report is served first and the
  support flag survives to the next message.
- A button pressed while the other flag is raised does not replace it.
- A message refused by the rate limiter does not consume a raised flag.
- A failed completion call still records its fallback reply in history.

## Model

| member | source | states |
|---|---|---|
| `RateLimit.Prune` | main.py:123 | a timestamp is kept iff it occurs in the list and `now - t < RATE_WINDOW`; the result is no longer than the input |
| `RateLimit.PruneCounts` | main.py:123 | every occurrence of an in-window timestamp is kept, every occurrence of an expired one is dropped (multiset equality) |
| `RateLimit.PruneConcat` | main.py:123 | pruning distributes over concatenation, so the kept timestamps stay in their original order |
| `RateLimit.PruneLater` | main.py:121-123 | pruning at one message and again at a later one equals pruning once at the later time: no timestamp is lost or counted twice |
| `RateLimit.PruneAllInWindow` | main.py:123 | a list entirely inside the window is kept unchanged |
| `RateLimit.PruneAllExpired` | main.py:123 | a list entirely outside the window is emptied |
| `RateLimit.LimitWithinWindow` | main.py:123-126 | five or more admitted messages still inside the window refuse the next one |
| `RateLimit.WindowCleared` | main.py:123-127 | once every recorded message has left the window, the next one is admitted |
| `RateLimit.BurstRefused` | main.py:123-126 | a recorded list of seconds 0..4 refuses a message at second 5 |
| `RateLimit.PauseAdmits` | main.py:123-127 | the same recorded list at second 11 prunes to 2, 3, 4 and admits the message |
| `Chat.Recent` | main.py:152 | the truncated history has at most 10 entries, is unchanged when already short, and has exactly 10 when it was longer |
| `Chat.RecentIsSuffix` | main.py:152 | what is kept is the newest part of the history, in order |
| `Chat.RecentAbsorbs` | main.py:150-152 | truncating after every turn equals truncating the whole transcript once: history is the last 10 entries of everything appended |
| `Chat.TurnKeepsPaired` | main.py:150-152 | a turn on paired history leaves paired history (user/assistant alternating, even length) ending with the new pair |
| `Chat.PairedSuffix` | main.py:152 | evicting an even number of oldest entries keeps history paired |
| `Chat.Request` | main.py:49-63 | the request has length history + 2: the persona entry first, the history in order, the user's text last |
| `Chat.RequestSingleSystem` | main.py:49-63 | on paired history the persona entry is the only system entry of the request |
| `Chat.StoredTurnFollowsRequest` | main.py:149-152 | the stored history is the request without its persona entry, plus the reply, truncated |
| `Session.Press` | main.py:98-113 | a button never changes timestamps or history; data other than "report"/"support" changes nothing and shows nothing |
| `Session.Deliver` | main.py:115-154 | the outcome is RateLimited iff the pruned list has 5 or more entries; forwarded tickets carry the user and the verbatim text; only a chat turn changes history |
| `Session.AdmissionDecision` | main.py:123-127 | the pruned list is always stored, and `now` is appended exactly when the message is admitted, whatever the flags |
| `Session.AdmittedAppends` | main.py:123-127 | a message admitted while every recorded timestamp is in the window appends its own timestamp to the list |
| `Session.BurstRecorded` | main.py:120-127 | from empty tables, one user's messages at seconds 0, 1, ... leave exactly those seconds recorded, up to the fifth |
| `Session.BurstDelivered` | main.py:120-127 | from empty tables, messages at seconds 0..4 are all admitted and recorded, and a sixth at second 5 is RateLimited |
| `Session.RefusedChangesOnlyTimestamps` | main.py:123-126 | a refused message stores the pruned list and changes nothing else |
| `Session.ReportConsumed` | main.py:130-135 | with the report flag raised, an admitted message is forwarded as a report and lowers that flag; nothing else changes except the recorded timestamp |
| `Session.SupportConsumed` | main.py:138-143 | with only the support flag raised, an admitted message is forwarded as a payment and lowers that flag; nothing else changes except the recorded timestamp |
| `Session.ReportBeforeSupport` | main.py:130-143 | with both flags raised, the first admitted message is the report (support stays raised), the second is the payment, then both are lowered |
| `Session.FlagConsumedOnce` | main.py:130-154 | a single raised flag captures exactly one admitted message; the next one is a chat turn |
| `Session.ChatTurn` | main.py:146-154 | with no flag raised, the reply is the completion of the request built from the old history; history becomes the last 10 of old history + the new pair; nothing else changes except the recorded timestamp |
| `Session.ChatTurnBounded` | main.py:146-152 | after a turn, history is paired, at most 10 entries and ends with the new pair; a full history drops exactly its oldest pair |
| `Session.FirstMessage` | main.py:146-154 | a fresh user's first message is sent with an empty history, stores exactly one pair and records one timestamp |
| `Session.PressEffect` | main.py:104-113 | "report" raises the report flag and asks for the text; "support" raises the support flag and shows the card number; neither touches the other flag |
| `Session.PressIdempotent` | main.py:104-109 | pressing the same button twice equals pressing it once |
| `Session.OtherUsersUntouched` | main.py:101-152 | a handler run for one user leaves every other user's timestamps, flags and history unchanged |
| `Session.PressLeavesOthers` | main.py:101-109 | a button press changes no other user's timestamps, flags or history |
| `Session.DeliverLeavesOthers` | main.py:116-152 | a text message changes no other user's timestamps, flags or history |
| `Session.TicketKeepsWellFormed` | main.py:123-143 | an admitted report or payment keeps every user at most 5 timestamps and paired history of at most 10 entries |
| `Session.ChatKeepsWellFormed` | main.py:123-152 | an admitted chat turn keeps every user at most 5 timestamps and paired history of at most 10 entries |
| `Session.DeliverKeepsWellFormed` | main.py:115-154 | a message keeps every user at most 5 timestamps and at most 10 entries of paired history |
| `Session.RunKeepsWellFormed` | main.py:33-38 | any sequence of button presses and messages keeps the store well-formed |
| `Session.Reachable` | main.py:33-38 | from empty tables, every reachable state has at most 5 timestamps and at most 10 paired history entries per user |
| `Bot.SessionStore.constructor` | main.py:33-36 | all four tables start empty |
| `Bot.SessionStore.Button` | main.py:98-113 | the in-place updates produce exactly `Session.Press`, and the store invariant is kept |
| `Bot.SessionStore.Message` | main.py:115-154 | the in-place updates produce exactly `Session.Deliver` (outcome and new tables), and the store invariant is kept |
| `Bot.SessionStore.ForwardReport` | main.py:130-135 | lowering the report flag after an admitted message produces exactly `Session.Deliver`'s report transition |
| `Bot.SessionStore.ForwardSupport` | main.py:138-143 | lowering the support flag after an admitted message produces exactly `Session.Deliver`'s payment transition |
| `Bot.SessionStore.Converse` | main.py:146-154 | creating the history if absent, asking `complete` and recording the exchange produces exactly `Session.Deliver`'s chat transition |
| `Bot.SessionStore.Admit` | main.py:120-127 | stores the pruned list, admits iff fewer than 5 remain, and then appends `now`; the other tables are unchanged |
| `Bot.SessionStore.RecordExchange` | main.py:150-152 | appending the pair and slicing leaves history = last 10 of old history + pair; the other tables are unchanged |

## Left out

- Telegram I/O is not modelled: the start keyboard, `query.answer`, `edit_message_text`, `reply_text` and `send_message`. A handler's visible effect is its returned `Outcome` or `Prompt`.
- Every platform call is assumed to succeed. In the source a flag changes only after the platform calls before it return: `query.answer()` (main.py:100) runs before a button raises its flag (main.py:105, 109), and `send_message` and `reply_text` (main.py:132-133, 140-141) run before a ticket lowers its flag (main.py:134, 142). If one of them raises, the flag keeps its old value while the message's timestamp is already recorded (main.py:127), so the next message is taken as a ticket again. The model always raises and lowers the flags (`Session.Press`, `Session.ReportConsumed`, `Session.SupportConsumed`).
- The reply and prompt texts are not modelled, and neither is the persona wording (`Chat.PERSONA` is a placeholder string).
- `ReportForwarded`/`SupportForwarded` carry the user id and text but not the user's display name from the admin notice; the name comes from the platform.
- The HTTP call, JSON indexing, exception handling and logging in `query_openrouter` are not modelled. The completion service is the `complete` parameter; the fallback apology is one of its possible results.
- `time.time()` is a float; `now` is an integer number of seconds.
- `text.strip()` is not modelled; the incoming text is taken as already stripped.
- Environment and config loading, application setup, handler registration and the FastAPI webhook, startup and shutdown are not modelled. They are platform plumbing.
- async/await and concurrent deliveries are not modelled. Each handler is one atomic step; `Session.Run` applies updates in delivery order.
- Bot.SessionStore.Message: requires `Valid()`, the store invariant that the constructor establishes and every handler keeps. The Python handler checks nothing, because every reachable state satisfies it (`Session.Reachable`).
- Bot.SessionStore.Button: requires `Valid()` for the same reason.
- Bot.SessionStore.ForwardReport, Bot.SessionStore.ForwardSupport and Bot.SessionStore.Converse: require `AdmittedFrom`, the tables exactly as `Admit` leaves them for an admitted message, and the flag test that selects their branch; `Message` calls them only there, as the handler's code runs on only after those tests.
