# Telegram bot manager and admin panel: a Dafny model

The system is a multi-bot Telegram service. A bot manager loads a set of bot
tokens from `bots.json` and registers one bot and one dispatcher per token.
It records every new sender in a users table and routes each inbound text
message by keyword:

- the first keyword of the keyword table that occurs in the text acts;
- the reserved keyword `结算查询` is answered with a fixed three-line settlement text;
- any other keyword has its message forwarded to every one of its target groups.

The manager also runs a cron scheduler that sends stored messages at fixed
times. A small admin web panel edits the same JSON tables. Each of its
handlers loads one file, inserts, overwrites or deletes one entry, and saves
the file back.

The model has five modules:

- `Collections`: an optional value, a first-match search, and Python's `dict`
  as an insertion-ordered list of key/value pairs with unique keys. `Put` is
  `d[k] = v`, `Remove` is `del d[k]` and `RemoveAt` is `del s[i]`.
- `Text`: `needle in haystack`, `s.split(sep)`, `sep.join(pieces)` and
  `s.strip()`, using Python's set of whitespace characters.
- `Storage`: the data files and their records. A loaded document is a typed
  JSON object or array. A file is missing, unreadable or readable.
  `LoadData` gives the default document for a missing or unreadable file.
- `BotManager`: the class `TelegramBotManager`, which holds the bots,
  dispatchers, users, keyword table, scheduled tasks and cron jobs.
  - Every platform call is returned as an `Action`: a users-file save, a
    forward, a reply, a send or a logged error.
  - Oracle parameters decide whether a forward, a send, a bot's
    construction or a job's admission succeeds.
  - Routing is specified by the function `RouteActions`, which the loop of
    `RouteMessage` is proved to compute. Registration is specified by
    `Opened`/`Refused` and scheduling by `AddedJobs`/`RejectedTasks`.
- `WebAdmin`: the class `AdminStore`, which holds the state on disk of each
  data file and the list of saves made. Its methods are the POST handlers of
  the panel. `ParseGroups` models the group-list parsing.

## Model

| member | source | states |
|---|---|---|
| `Collections.Put` | web_admin.py:155 | `d[k] = v`: `k` then maps to `v`; every other key keeps its value; an existing key keeps its position; a new key is appended last; keys stay unique |
| `Collections.Remove` | web_admin.py:166-167 | `del d[k]` guarded by `k in d`: `k` is gone; every other key keeps its value; the length drops by one exactly when `k` was present; an absent key leaves the dict identical; a present key's entry is cut out at its position, so the other entries keep their order |
| `Collections.RemoveAt` | web_admin.py:246 | `del s[i]`: one element fewer; the elements before `i` stay put; the ones after `i` move down by one |
| `Collections.HasKey` | web_admin.py:128 | `k in d` holds exactly when some entry of the dict has key `k` |
| `Collections.GetIsMembership` | web_admin.py:128 | in a dict with unique keys, a lookup returns `v` exactly when the pair `(k, v)` is an entry |
| `Collections.PutIdempotent` | web_admin.py:113-119 | adding the same entry twice leaves the same table as adding it once |
| `Collections.RemoveUndoesPut` | web_admin.py:127-131 | deleting a key that was just added to a table without it gives back the table |
| `Collections.RemoveAtUndoesAppend` | web_admin.py:244-248 | deleting the last index right after an append gives back the task list |
| `Text.IsSubstring` | bot_manager.py:121 | `keyword in message.text` can hold only when the keyword is no longer than the text, and the empty keyword is in every text |
| `Text.IsSubstringIffOccurs` | bot_manager.py:121 | the scan used for `keyword in message.text` holds exactly when the keyword occurs at some position of the text |
| `Text.Split` | web_admin.py:152 | `split(',')` gives one piece more than there are separators, and no piece holds a separator |
| `Text.JoinSplit` | web_admin.py:152 | joining the pieces of a split with the separator gives back the original text |
| `Text.SplitJoin` | web_admin.py:152 | splitting a join of separator-free pieces gives back the pieces |
| `Text.Strip` | web_admin.py:155 | `strip()` keeps a contiguous slice of the text; everything cut off in front and behind is whitespace; the result neither starts nor ends with whitespace; it holds only characters of the input |
| `Text.StripIdempotent` | web_admin.py:155 | stripping an already stripped group changes nothing |
| `Storage.LoadData` | web_admin.py:43-50 | a readable file gives its own document; a missing or unreadable one gives an empty document, which is an array exactly for the scheduled-task file and a mapping for every other file |
| `BotManager.LoadDataAsWritten` | bot_manager.py:60-68 | the manager's loader as written: a readable file gives its document; otherwise an empty document, which is a mapping exactly for the users, keywords and messages files |
| `BotManager.MissingBotsFileLoadsAsListAsWritten` | bot_manager.py:68 | with bots.json missing or unreadable, the manager's loader gives the empty list; the corrected loader gives the empty mapping |
| `BotManager.UpsertUser` | bot_manager.py:107-116 | the ids afterwards are the old ids plus the sender's; no existing record changes; a new id gets a record built from the sender |
| `BotManager.UpsertIdempotent` | bot_manager.py:107-116 | a second message from the same id changes nothing; the table grows by one record for a new id and does not grow for a known one |
| `BotManager.SettlementReplyHasThreeLines` | bot_manager.py:143-145 | the settlement answer is exactly the three fixed lines |
| `BotManager.SettlementAnswer` | bot_manager.py:139-147 | the settlement answer is a reply on the query's own chat whose text splits at newlines into exactly the three fixed lines |
| `BotManager.FirstMatch` | bot_manager.py:120-121 | the acting entry is one whose keyword occurs in the text, no earlier entry's keyword occurs, and there is none exactly when no keyword occurs |
| `BotManager.ForwardOne` | bot_manager.py:128-136 | one `try` per group gives only the forward of the original message to that group or that group's logged failure; the forward is made exactly when the bot is registered; the failure is logged exactly when the bot is missing or the forward fails |
| `BotManager.ForwardAll` | bot_manager.py:127-136 | the inner loop yields at least one action per target group |
| `BotManager.ForwardAllShape` | bot_manager.py:127-136 | every action of the inner loop is a forward of the original message, from its own chat and with its own id, to one of the target groups, or the logged failure of one of them |
| `BotManager.Fire` | bot_manager.py:123-136 | what the acting keyword does only responds to this message: a forward of it, a logged failed forward, or the settlement reply on its chat; the settlement reply is given exactly when the acting keyword is the reserved one |
| `BotManager.RouteActions` | bot_manager.py:119-137 | the router does something only for a message with a text in which some keyword of the table occurs, and everything it does responds to that message |
| `BotManager.ForwardAllAppend` | bot_manager.py:127-136 | the attempts for a group list are the attempts for any prefix followed by those for the rest, so no group's outcome affects another's |
| `BotManager.ForwardAllAttemptsEveryGroup` | bot_manager.py:127-136 | with the bot registered, a forward goes to every group in list order, exactly the undelivered groups are logged, and there is no reply; without it, no forward is made and every group is logged; every forward carries the original chat and message id |
| `BotManager.RouteNoMatch` | bot_manager.py:119-137 | with no text, or no keyword in the text, the router does nothing |
| `BotManager.RouteFirstMatch` | bot_manager.py:120-137 | the first entry in table order whose keyword occurs decides what is done, and the later entries are ignored |
| `BotManager.RouteSettlement` | bot_manager.py:123-124 | when the reserved keyword is the first match, the one action is the fixed reply on the query's chat |
| `BotManager.RouteForwards` | bot_manager.py:125-136 | when another keyword is the first match and the bot is registered, its groups are attempted in order, the undelivered ones are logged, and nothing is replied |
| `BotManager.AtMostOneKeywordActs` | bot_manager.py:120-137 | at most one reply; a reply excludes any forward; a reply happens exactly when the reserved keyword is the first match |
| `BotManager.FirstMatchNotLongest` | bot_manager.py:120-121 | a keyword placed before a longer keyword that extends it is chosen first on every text holding the longer one |
| `BotManager.AddedJobs` | bot_manager.py:171-186 | every task ends up either with a job or in the failed list: the jobs and the rejected tasks together number as many as the tasks |
| `BotManager.RejectedTasks` | bot_manager.py:171-186 | no more tasks fail than there are tasks |
| `BotManager.RejectedTasksIff` | bot_manager.py:171-186 | a task is reported as failed exactly when it is one of the stored tasks and the scheduler refuses its job |
| `BotManager.RejectedTaskIsSkipped` | bot_manager.py:171-186 | a task whose job cannot be added is skipped, and the tasks before and after it still get their jobs |
| `BotManager.AllTasksScheduled` | bot_manager.py:171-186 | when every task is admitted, there is one job per task, job `k` carrying task `k`'s time, bot, chat and message |
| `BotManager.OpenedIff` | bot_manager.py:81-90 | a token is registered exactly when it is in the bots file and its bot can be constructed, whatever happens to the other tokens |
| `BotManager.Refused` | bot_manager.py:81-90 | no more tokens fail than the bots file has entries |
| `BotManager.RefusedIff` | bot_manager.py:81-90 | a token is reported as failed exactly when it is a key of the bots file whose bot cannot be constructed |
| `BotManager.TelegramBotManager.constructor` | bot_manager.py:43-49 | the manager starts with the loaded users, keyword table and task list, and with no bot, no dispatcher, no job and the scheduler stopped |
| `BotManager.TelegramBotManager.Register` | bot_manager.py:83-87 | the token then maps to its bot and to a dispatcher for that bot, and every other registration is unchanged |
| `BotManager.TelegramBotManager.LoadBots` | bot_manager.py:81-90 | a mapping-shaped loaded bots document registers exactly the constructible tokens, each with its dispatcher, and reports the refused tokens in file order; any other document fails before anything is registered; bots and dispatchers keep the same keys |
| `BotManager.TelegramBotManager.StartScheduler` | bot_manager.py:168-188 | the jobs added are those of the admitted tasks in task order; the rejected tasks are reported; the scheduler then runs |
| `BotManager.TelegramBotManager.Start` | bot_manager.py:54-58 | the scheduler is started only when bot loading succeeds, and then holds the jobs of the admitted tasks; when loading fails, no bot, dispatcher or job changes |
| `BotManager.TelegramBotManager.StartAsWritten` | bot_manager.py:54-58 | startup through the manager's own loader: with bots.json missing or unreadable it fails, registers no bot and never starts the scheduler |
| `BotManager.TelegramBotManager.StartFromDisk` | bot_manager.py:54-58 | startup through the corrected loader: it fails only on a bots file holding a list; with bots.json missing or unreadable it succeeds with no bot registered and the scheduler running the admitted tasks' jobs |
| `BotManager.TelegramBotManager.ProcessMessage` | bot_manager.py:104-137 | the users table becomes the upserted one and is saved only for a new id; the actions are then exactly those of the keyword router |
| `BotManager.TelegramBotManager.RouteMessage` | bot_manager.py:118-137 | the scan with `break` and the inner loop over groups compute exactly the routing specification |
| `BotManager.TelegramBotManager.ForwardToGroups` | bot_manager.py:127-136 | the loop over the target groups, one `try` per group, produces exactly the attempts `ForwardAll` specifies |
| `BotManager.TelegramBotManager.ForwardAttempt` | bot_manager.py:128-136 | the body of one `try` produces exactly the attempt `ForwardOne` specifies |
| `BotManager.TelegramBotManager.SendScheduledMessage` | bot_manager.py:190-199 | an unregistered token sends nothing and logs the missing bot; a registered one makes exactly one send of the message to the chat, and a failure is only logged |
| `WebAdmin.ParseGroups` | web_admin.py:152-155 | the group list has one entry per comma plus one, so it is never empty; entry `i` is the stripped `i`-th piece; no entry holds a comma |
| `WebAdmin.ParseGroupsStripped` | web_admin.py:155 | no parsed group has whitespace left to strip |
| `WebAdmin.ParseGroupsOfJoin` | web_admin.py:152-155 | a non-empty list of stripped groups without commas, joined with commas, parses back to the same list |
| `WebAdmin.AdminStore.AddBot` | web_admin.py:113-119 | on a mapping-shaped bots file, the token maps to the new name and time, every other bot stays, and the file is saved; on a list, nothing changes and nothing is saved |
| `WebAdmin.AdminStore.DeleteBot` | web_admin.py:127-131 | a present token is removed and the file saved; otherwise nothing changes and nothing is saved |
| `WebAdmin.AdminStore.AddKeyword` | web_admin.py:151-157 | the keyword maps to the parsed group list, overwriting any earlier entry in its place; every other keyword stays; the file is saved |
| `WebAdmin.AdminStore.DeleteKeyword` | web_admin.py:165-169 | a present keyword is removed and the file saved; otherwise nothing changes and nothing is saved |
| `WebAdmin.AdminStore.AddDevice` | web_admin.py:186-193 | the device id maps to the new name, description and time; every other device stays; the file is saved |
| `WebAdmin.AdminStore.DeleteDevice` | web_admin.py:201-205 | a present device is removed and the file saved; otherwise nothing changes and nothing is saved |
| `WebAdmin.AdminStore.AddTask` | web_admin.py:224-235 | on a list-shaped task file, exactly one task holding the raw form fields is appended after the unchanged earlier tasks, and the file is saved; on a mapping, nothing changes |
| `WebAdmin.AdminStore.DeleteTask` | web_admin.py:244-248 | an index inside the list removes exactly that task and saves; an index outside it changes nothing and saves nothing |
| `WebAdmin.AdminStore.ApiStats` | web_admin.py:254-264 | the four counts are the sizes of the loaded bots, users, devices and task documents, with a missing file counting as empty |

## Left out

- Flask routing and flask_login: the login with fixed credentials, the GET pages, the templates and the redirects are not modelled. The `index` page's counts (web_admin.py:87-97) are the same as `ApiStats`.
- JSON decoding and encoding, and `os.path.exists`. A file is `Missing`, `Unreadable` or `Readable` holding an already-typed document. A document of any other JSON shape, such as a scalar or entries of the wrong record type, is not modelled.
- A failed save: `save_data` logs and swallows every write error. The model records each save in `saved` and does not model a failed write.
- The manager constructor takes the users, keyword and task tables already decoded. Only the bots file goes through the loader, because that is where the two loaders differ.
- The messages table is loaded by `__init__` and never used, so it is not a field.
- aiogram: bot construction, dispatcher set-up, `forward_message`, `send_message` and `message.answer` become actions and oracles. Polling in `run` (bot_manager.py:160-166) and the admin command with its keyboard and state machine (bot_manager.py:150-158) are not modelled.
- `BotManager.TelegramBotManager.ProcessMessage`: a failing settlement reply would raise out of the handler. The model always emits the reply action and does not model that failure.
- APScheduler: cron timing, firing, and the check of hour and minute values at `add_job` are not modelled. The oracle `accepts` decides admission, and a job records the raw strings.
- Forward outcomes per attempt: the oracle `delivered` of `ForwardAll` decides per group, not per attempt, so a group listed twice under one keyword gets the same outcome both times, whereas each `forward_message` call in the source succeeds or fails on its own.
- asyncio and concurrency: handlers run one at a time in the model.
- `datetime.now().isoformat()` is passed in as an opaque string parameter.
- Logging: only the fact that an error is logged is modelled, not its text. Success log lines are not modelled.
- User ids across a reload: JSON turns the int keys of `users` into strings, so after a restart a known sender is added again. Users are keyed by `int` in one in-memory state only.
- Form fields that are missing (`None`) are not modelled. Every form field is a string.
- main.py is not part of this model.

## Findings

| source | as written | input that shows it | evidently intended | confidence | as-written member | corrected member |
|---|---|---|---|---|---|---|
| bot_manager.py:68 | `_load_data` falls back to `{}` only for the users, keywords and messages files, so a missing or unreadable bots file loads as `[]`; `_load_bots` (bot_manager.py:81) then calls `.items()` on that list outside its `try`, and the manager's constructor raises; `TelegramBotManager.StartFromDisk` uses the corrected loader | no `data/bots.json` at first start | an empty mapping for the bots file, as the admin panel's `load_data` (web_admin.py:50) gives, so that startup registers no bot and goes on to the scheduler | not executed | `BotManager.TelegramBotManager.StartAsWritten` | `BotManager.TelegramBotManager.StartFromDisk` |
