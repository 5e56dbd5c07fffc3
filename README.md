# Athena home assistant — a verified model of its core logic

Athena is a family-planning chat assistant. A turn of conversation goes through several steps:

- it reads the local clock and an IP-based location;
- it turns them into flags and phrases for the system prompt;
- it resolves whose memory partition the turn belongs to;
- it folds that user's stored memories and the relevant search hits into the prompt;
- it places the system message in front of the history;
- after the model answers, it decides whether the exchange is written back to memory.

Beside the chat runs a small user store: a `users` table with unique email, username and memory key. An authentication service works on it: create, look up, log in, update and soft-delete.

This project models that logic in Dafny and proves what it promises. The modules follow the source files:

| Dafny module | file | models |
|---|---|---|
| `ContextUtils` | `context_utils.dfy` | calendar classifiers, the time-and-date record, the location record and its fallback, the activity suggestions, the context summary |
| `Agent` | `agent.dfy` | the memory-enhanced turn: user-id resolution, normalising memory-service responses, the prompt builder, the storing gate, system-message replacement, the turn itself over a mutable message array |
| `Chatbot` | `athena_chatbot.dfy` | the earlier command-line assistant: its time record, the time-of-day and day phrases, the prepend-only system message, `update_context` on its state object, the command loop |
| `Models` | `models.dfy` | the `User` row, the defaults it is inserted with, `to_dict`, `get_mem0_user_id` |
| `UserService` | `user_service.dfy` | the users table and the service's operations; pure functions over the table's rows state each operation, and the `UserTable` class implements them with loops and updates in place |
| `Strings`, `Wrappers`, `Messages` | `strings.dfy`, `wrappers.dfy`, `messages.dfy` | Python's `str.split`, `in` on strings and ASCII `lower()`; `Option` and the raised-or-returned outcome of a foreign call; the chat message kinds |

External inputs are parameters of the model:

- the clock, as integer hour, weekday, month and day plus the already formatted texts;
- the outcome of the location request;
- the memory service's replies to `get_all` and `search`, or the fact that they raised;
- the language model's reply, or the fact that the call raised;
- the base system prompt;
- ISO timestamps and UTC instants;
- generated ids.

Password hashing enters the model as two functions, `hash` and `verify`. They are fixed when the table is built and are required to satisfy `verify(p, hash(p))` for every password.

### Behaviours of the code that the model keeps

- **User-id resolver.** The comment at athena_agent/agent.py:211 says the user is extracted from the thread id. Lines 212-215 take the second `_`-separated field of the whole thread id, not the token after `user_`. So every thread id `<head>_user_<token>` with a head and token free of `_` resolves to `"user_user"` (`Agent.SecondFieldNotToken`), for instance `"chat_user_7"`; a head holding `_` shifts the fields, so `"a_b_user_7"` gives `"user_b"`. A metadata user id equal to `"default_user"` counts as absent.
- **`updated_at`.** The column is declared with `onupdate=datetime.utcnow` (database/models.py:19). So every commit that changes a row also refreshes `updated_at`, not only `update_user` and `delete_user`:
  - the login commit of `authenticate_user`;
  - the second commit of `create_user`.
- **Creation is not atomic.** `create_user` commits twice, the row first and then, after the comment "Set mem0_user_id after commit when ID is available", its memory key. If another row already holds the key `"user_" + id`, only the second commit is rolled back. The caller gets `None` while the row stays, without a key (`UserService.CreateNotAtomic`). Only a previous `update_user` can give a row such a key. Without one, creation is all-or-nothing (`UserService.CreateAllOrNothing`).
- **The memory key can change.** `get_mem0_user_id` generates the key once and then returns it. But the `setattr` loop of `update_user` (auth/user_service.py:128-130) skips only `id`, so `mem0_user_id` can still be overwritten.

## Model

| member | source | states |
|---|---|---|
| `ContextUtils.CurrentTimeAndDate` | context_utils.py:11-32 | exactly one of morning/afternoon/evening/night holds for every hour, each exactly on the part of the day that begins at 05, 12, 17 or 21; weekend iff Saturday or Sunday and weekday is its complement; the holiday, season and school-year fields; the date, time, day, month and year texts are the clock's; timezone "Local Time" |
| `ContextUtils.IsHolidaySeason` | context_utils.py:64-77 | the holiday season is exactly the calendar interval November 22 through January 7: late November from the 22nd, all of December, January up to the 7th |
| `ContextUtils.GetSeason` | context_utils.py:79-90 | total on months 1..12; the result is one of the four season names |
| `ContextUtils.SeasonIsQuarter` | context_utils.py:79-90 | the seasons are the consecutive quarters starting in December: Dec–Feb Winter, Mar–May Spring, Jun–Aug Summer, Sep–Nov Fall |
| `ContextUtils.IsSchoolYear` | context_utils.py:92-100 | school year exactly when the month is neither July nor August |
| `ContextUtils.GetLocationContext` | context_utils.py:34-62 | `detected` iff the request returned status 200 with a JSON object; the fallback has every text field "Unknown", null coordinates and `detected` false; on success each field is the reply's key or "Unknown"/null when missing |
| `ContextUtils.Take` | context_utils.py:174 | Python's `xs[:n]`: length is the smaller of the two and the result is a prefix |
| `ContextUtils.GetContextAwareSuggestions` | context_utils.py:121-176 | exactly four current suggestions; in the morning, afternoon or evening exactly that list, at night the weekend or weekday list by the day; the full table with its five keys |
| `ContextUtils.CreateContextSummary` | context_utils.py:102-119 | the summary is exactly the date and time line, the city and region line, the season line, then exactly one of the weekend and weekday lines (weekend iff Saturday or Sunday), then the holiday line iff it is the holiday season |
| `ContextUtils.SummaryShape` | context_utils.py:107-117 | for any lines distinguished as the real ones are, the appended weekend/weekday and holiday lines are recognisable from the summary's end exactly when they were appended |
| `Strings.Split` | athena_agent/agent.py:213 | `str.split(sep)` always yields at least one field |
| `Strings.JoinSplit` | athena_agent/agent.py:213 | joining the fields with the separator gives back the string |
| `Strings.SplitFields` | athena_agent/agent.py:213 | the number of fields is one more than the separator count and no field contains the separator |
| `Strings.Lower` | athena_chatbot.py:270 | the lower-cased string has the same length and each character lower-cased |
| `Agent.ResolveUserId` | athena_agent/agent.py:203-215 | a metadata user id other than "default_user" wins; otherwise a thread id containing "user_" gives "user_" plus its second '_' field (which exists); otherwise "default_user" |
| `Agent.SplitGuardHolds` | athena_agent/agent.py:212-215 | once "user_" occurs in the thread id, splitting it on '_' gives at least two fields, so the length guard never fails |
| `Agent.ResolveSecondField` | athena_agent/agent.py:209-215 | with no metadata user, a thread id `<head>_<field>` or `<head>_<field>_<rest>` containing "user_" resolves to "user_" + field, whatever the head |
| `Agent.ResolveFromUserThread` | athena_agent/agent.py:209-215 | a thread id "user_" + token (+ "_" + rest) without a metadata user resolves to "user_" + token |
| `Agent.ResolveDefault` | athena_agent/agent.py:206-215 | a thread id without '_' and no metadata user resolve to "default_user" |
| `Agent.ResolverExampleUserThread` | athena_agent/agent.py:209-215 | "user_mike_001" resolves to "user_mike" |
| `Agent.ResolverExampleDefault` | athena_agent/agent.py:206-215 | "abc123" resolves to "default_user" |
| `Agent.SecondFieldNotToken` | athena_agent/agent.py:212-215 | every thread id `<head>_user_<token>` with a head and token free of '_' (for instance "chat_user_7") resolves to "user_user": the heuristic takes the second field, not the token after "user_" |
| `Agent.ResolvedIdNonEmpty` | athena_agent/agent.py:204-215 | without metadata the resolved user id is never empty |
| `Agent.MemoriesList` | athena_agent/agent.py:130-138 | a bare list is the list; a dictionary gives its "results", else its "memories"; the list is empty unless the reply is a list or a dictionary with one of those keys |
| `Agent.RelevantList` | athena_agent/agent.py:150-155 | the search list is the memory list of the same reply except that a dictionary without "results" gives nothing; a non-empty search list equals the memory list |
| `Agent.ShapesNormaliseAlike` | athena_agent/agent.py:131-155 | a dict's "results", a dict's "memories" and a bare list yield the same memory list; "results" takes precedence; search results ignore "memories" |
| `Agent.ItemText` | athena_agent/agent.py:143 | a memory line shows the "memory" field, else "text", else the item's string form; a non-dictionary item raises |
| `Agent.ItemTexts` | athena_agent/agent.py:142-144 | the texts exist iff every item is a dictionary, one per item, in order |
| `Agent.Bullets` | athena_agent/agent.py:142-144 | the bullet lines are empty exactly when there are no texts |
| `Agent.BulletsConcat` | athena_agent/agent.py:142-144 | the bullet lines of two lists are the first list's lines followed by the second's |
| `Agent.SurfacedMemories` | athena_agent/agent.py:140-144 | at most ten lines, the texts of the first ten memories in order; absent iff one of those ten raises |
| `Agent.SurfacedRelevant` | athena_agent/agent.py:157-161 | at most three lines, the texts of the first three results in order; absent iff one of those three raises |
| `Agent.StoredBlock` | athena_agent/agent.py:131-145 | absent exactly when one of the first ten memories raises; empty exactly when there are no memories; otherwise the stored-information header, the bullets of the surfaced memories and the footer |
| `Agent.RelevantBlock` | athena_agent/agent.py:150-161 | absent exactly when one of the first three results raises; empty exactly when there are no results; otherwise the relevant-context header and the bullets of the surfaced results |
| `Agent.MemoryEnhancedPrompt` | athena_agent/agent.py:120-166 | the prompt always starts with the base prompt; it is exactly the base prompt with no client, an empty user id, a memory call that raises, a non-dictionary among the first ten memories, or (with a non-empty message) a non-dictionary among the first three results; with an empty message it is the base prompt plus the stored block |
| `Agent.FullPromptShape` | athena_agent/agent.py:120-166 | with a client, a user and a non-empty message, and nothing shown raising: base prompt, then header + bullets + footer unless there are no memories, then header + bullets unless there are no results |
| `Agent.RelevantNeedsMessage` | athena_agent/agent.py:148-161 | with an empty user message the search reply has no influence on the prompt |
| `Agent.StoredBlockShape` | athena_agent/agent.py:140-145 | with dictionary memories and no message the prompt is base + header + one bullet per surfaced memory + footer |
| `Agent.RenderBullets` | athena_agent/agent.py:142-144 | the accumulating loop yields header plus one bullet line per item in order, or reports that an item raises |
| `Agent.CreateMemoryEnhancedSystemPrompt` | athena_agent/agent.py:120-166 | the imperative builder returns exactly the prompt the specification function describes |
| `Agent.StoreInteraction` | athena_agent/agent.py:169-181 | something is sent iff there is a client and a user id, and it is exactly [user entry, assistant entry] in that order |
| `Agent.CurrentUserMessage` | athena_agent/agent.py:229-232 | the last message's content when it is a human message, otherwise "" |
| `Agent.ExchangeToStore` | athena_agent/agent.py:251-252 | the exchange is stored iff client, user id, a non-empty last human message and a plain-text reply, as the two-entry transcript |
| `Agent.WithSystemPrompt` | athena_agent/agent.py:242-245 | the first message is the new system prompt; a leading system message is replaced, otherwise the prompt is prepended; the rest of the history is unchanged |
| `Agent.SystemPromptRefreshed` | athena_agent/agent.py:242-245 | placing a prompt twice equals placing only the second: system messages never pile up |
| `Agent.Chatbot` | athena_agent/agent.py:198-258 | the context gains the new time, location and timestamp; the model receives the history with the memory-enhanced prompt placed; the message array is overwritten at index 0 exactly when it led with a system message, before the model is called; a raising model call stores nothing and the turn raises; otherwise the stored exchange and the returned update |
| `Chatbot.BasicTimeAndDate` | athena_chatbot.py:35-52 | exactly one of the four time flags holds, night exactly on the night hours |
| `Chatbot.BasicAgreesWithContextUtils` | athena_chatbot.py:35-52 | the duplicated time record agrees with the context utilities' record on every shared field |
| `Chatbot.TimeContext` | athena_chatbot.py:88-96 | one of the four phrases; the late phrase exactly when no day-part flag holds |
| `Chatbot.TimeContextByBucket` | athena_chatbot.py:88-96 | on every clock reading the phrase is the one of the hour's part of the day, and the four phrases are distinct |
| `Chatbot.DayContext` | athena_chatbot.py:99-103 | the weekend phrase iff weekend, otherwise the weekday phrase |
| `Chatbot.PrependSystemIfMissing` | athena_chatbot.py:171-174 | a system message is prepended only to an empty history or one not led by a system message; an existing one is kept |
| `Chatbot.FirstPromptStays` | athena_chatbot.py:171-174 | over two successive turns on a history led by a system message, both turns send the history unchanged, led by that same message, whatever the prompts |
| `Chatbot.PromptPrependedEachTurn` | athena_chatbot.py:171-176 | the prepended prompt is not stored: over two successive turns on a history without a leading system message, each turn puts its own current prompt in front |
| `Chatbot.ChatState.UpdateContext` | athena_chatbot.py:143-148 | only "time" and "last_updated" are overwritten, every other key keeps its value, and the returned dictionary is the state's own |
| `Chatbot.ChatState.Turn` | athena_chatbot.py:163-176 | the context is refreshed and the model receives the history with the prompt prepended only if missing; the update is the model's reply, and a raising call gives none while the refreshed context stays |
| `Chatbot.Classify` | athena_chatbot.py:270-287 | quit iff the lower-cased line is quit, exit or q; new thread iff "new"; memory report iff "memory"; otherwise chat |
| `Chatbot.ClassifyIgnoresCase` | athena_chatbot.py:270-280 | the command does not depend on the letters' case |
| `Chatbot.Session` | athena_chatbot.py:267-288 | at most one event per line typed; no events exactly when nothing is typed or the first line is a quit command; every forwarded line is one of the lines typed |
| `Chatbot.RunChatbot` | athena_chatbot.py:237-295 | the loop produces exactly the session's events: forwards on the current thread, new thread ids at `new`, reports at `memory`, stopping at quit |
| `Chatbot.OnlyChatForwarded` | athena_chatbot.py:270-287 | no command word is ever forwarded to the assistant |
| `Chatbot.QuitEndsSession` | athena_chatbot.py:267-272 | nothing typed after a quit command has any effect |
| `Chatbot.NewCount` | athena_chatbot.py:273-277 | the number of `new` lines among the lines given; it is zero iff none of them is `new` |
| `Chatbot.SessionAt` | athena_chatbot.py:267-288 | before the first quit, line i gives the event its command gives on the thread and counter reached after the first i lines |
| `Chatbot.NextAtCount` | athena_chatbot.py:273-277 | the id counter after i lines has moved on by the number of `new` lines among them |
| `Chatbot.ThreadAtLastDrawn` | athena_chatbot.py:273-277 | the thread in use is the starting one until a `new` line, then the id drawn last |
| `Chatbot.LineEventMeaning` | athena_chatbot.py:273-288 | a line that is not a quit is forwarded iff it is plain chat; `new` starts the next id; `memory` reports the current thread |
| `Chatbot.SessionLine` | athena_chatbot.py:267-288 | before the first quit, line i is forwarded iff it is plain chat, on the starting thread if no `new` came before, otherwise on the id drawn by the k-th `new` (k `new` lines before i); a `new` line starts the id after that one; `memory` reports the current thread |
| `Chatbot.PlainChatForwardsAll` | athena_chatbot.py:267-288 | without commands every line is forwarded, in order, on the first thread |
| `Models.InsertedUser` | database/models.py:10-27 | a new row is active, unverified, without login, memory key or preferences, with both timestamps at the insert |
| `Models.ToDict` | database/models.py:32-45 | exactly the ten profile keys with the row's values, never the password hash, `updated_at` or the preferences; null names, memory key, creation or login time map to null |
| `Models.ToDictDeterminesProfile` | database/models.py:32-45 | two rows with the same dictionary agree on every column except the password hash, `updated_at` and the preferences |
| `Models.ToDictHidesPassword` | database/models.py:32-45 | users differing only in the password hash serialise identically |
| `Models.GetMem0UserId` | database/models.py:47-51 | an empty or missing key becomes "user_" + id; an existing key is returned and never overwritten; the row now holds the returned key |
| `Models.Mem0UserIdStable` | database/models.py:47-51 | asking again returns the same key and changes nothing |
| `UserService.Unique` | database/models.py:10-25 | in a table that keeps its constraints, any two different rows differ in id, email and username; a table of at most one row keeps them |
| `UserService.FirstMatch` | auth/user_service.py:65-77 | the index of the first row holding the value in the column, or none iff no row does |
| `UserService.Lookup` | auth/user_service.py:64-77 | a found user is a row holding the value in that column; nothing is found exactly when no row holds it |
| `UserService.UniqueMatch` | database/models.py:10-25 | under the unique constraints, a row holding a value is the one every lookup finds |
| `UserService.CreateRows` | auth/user_service.py:35-62 | table unchanged and no user iff id, email or username is taken; on success exactly one row is appended with the hash, key "user_" + id, active, unverified and timestamps; the key-collision case leaves a keyless row and no user |
| `UserService.CreateDuplicateRejected` | auth/user_service.py:55-58 | an existing email or username gives no user and an unchanged table |
| `UserService.CreateAllOrNothing` | auth/user_service.py:35-62 | unless a row already holds the key "user_" + id, creation adds the returned row exactly or changes nothing |
| `UserService.CreateNotAtomic` | auth/user_service.py:46-58 | a one-row table whose row holds the key "user_n": creating a user with id "n" returns no user yet adds a row |
| `UserService.CreateKeepsUnique` | auth/user_service.py:46-52 | creation keeps the unique constraints |
| `UserService.LoginMatch` | auth/user_service.py:96-98 | the email match when there is one, otherwise the username match |
| `UserService.AuthenticateRows` | auth/user_service.py:96-109 | no user and no change iff no row matches or the password does not verify; on success only that row's last login (and its `updated_at`) change |
| `UserService.CreateThenAuthenticate` | auth/user_service.py:35-109 | a just-created user logs in with its email and password |
| `UserService.EmailShadowsUsername` | auth/user_service.py:96-104 | when the login name is some user's email, a failing password for that user fails even if it is another user's username |
| `UserService.AuthenticateIgnoresActive` | auth/user_service.py:96-109 | whether a login succeeds never depends on the active flag |
| `UserService.Apply` | auth/user_service.py:128-130 | one `setattr` writes its column's value and keeps every other column and the id |
| `UserService.ApplyAll` | auth/user_service.py:128-130 | no keyword arguments change the id |
| `UserService.ApplyAllConcat` | auth/user_service.py:128-130 | applying two runs of arguments in turn equals applying them together |
| `UserService.ApplyAllFrame` | auth/user_service.py:128-130 | every column that no argument writes keeps its value |
| `UserService.ApplyAllLastWins` | auth/user_service.py:128-130 | every column takes the value of the last argument that writes it |
| `UserService.UpdateRows` | auth/user_service.py:128-136 | the row with the id gets the assignments and a fresh `updated_at`; the update succeeds exactly when the resulting table keeps the unique constraints; a violation or a missing user changes nothing and is reported |
| `UserService.ReplaceKeepsUnique` | database/models.py:10-25 | replacing a row by one with the same id, email, username and memory key keeps the constraints |
| `UserService.UpdateOtherColumnsSucceeds` | auth/user_service.py:128-136 | in a table that keeps its constraints, an update touching no unique column always succeeds and replaces just that row |
| `UserService.UpdateKeepsId` | auth/user_service.py:128-136 | after a successful update the same user is found by the same id |
| `UserService.DeleteRows` | auth/user_service.py:150-154 | reports success; exactly the active flag and `updated_at` of the user's row change, and nothing at all for an absent user |
| `UserService.SoftDeletedStillFoundAndLogsIn` | auth/user_service.py:150-154 | after a soft delete the user is still found by id, inactive, and still logs in |
| `UserService.UserTable.FindIndex` | auth/user_service.py:65-77 | the scanning loop finds exactly the first matching row |
| `UserService.UserTable.GetUserByEmail` | auth/user_service.py:64-67 | the row with that email, or none iff no row has it |
| `UserService.UserTable.GetUserByUsername` | auth/user_service.py:69-72 | the row with that username, or none iff no row has it |
| `UserService.UserTable.GetUserById` | auth/user_service.py:74-77 | the row with that id, or none iff no row has it |
| `UserService.UserTable.CreateUser` | auth/user_service.py:13-62 | the table and result are those of the creation function on the password's hash; the constraints and the password law are kept |
| `UserService.UserTable.AuthenticateUser` | auth/user_service.py:80-109 | the table and result are those of the authentication function; the constraints are kept |
| `UserService.UserTable.UpdateUser` | auth/user_service.py:111-136 | the `setattr` loop and commit give the table and outcome of the update function; the constraints are kept |
| `UserService.UserTable.DeleteUser` | auth/user_service.py:138-158 | the table and result of the soft-delete function; the constraints are kept |

## Left out

- Calls to the language model, the Tavily search tool and the mem0 client are not modelled. Their replies, or the fact that they raised, are inputs. The tool calls a model reply may carry are not modelled.
- The LangGraph runtime is not modelled: the state graph, `ToolNode`, `tools_condition`, the checkpointer, and the `add_messages` merge of the returned update. It is library code.
- The IP-location HTTP request is not modelled. Its outcome (unreachable; status code and JSON object or not) is an input.
- `datetime.now()`, `utcnow()`, `strftime` and `isoformat` are inputs. The clock comes as integers plus the formatted texts. Instants are integers, and all readings of the clock within one service call are one instant.
- The wording of the system-prompt templates (both `create_context_aware_system_prompt` functions) is not modelled. The agent's base prompt is an input; of the older template only the time and day phrases are modelled.
- The older assistant's copy of `get_location_context` (athena_chatbot.py:54-80) is not modelled, nor its `initialize_context` and `stream_graph_updates`. Of the chat path, only the forwarding of a line on a thread is modelled.
- Console printing, the banners, the `KeyboardInterrupt` and catch-all handlers of the command loop, and end of input are not modelled.
- `Strings.Lower`: lower-cases ASCII letters only. Python's `lower()` also folds other scripts, which makes no difference when comparing against the ASCII command words.
- Memory items carry string-valued fields only; a non-string field value would be shown through `str()`. JSON location values other than strings and null are carried as their string form.
- `hash_password`, `verify_password` and JWT handling are not modelled (auth/auth_utils.py is not part of this model). Only the law that a password verifies against its own hash is assumed.
- SQLAlchemy sessions are replaced by a sequence of rows: add, commit, refresh and rollback are modelled only by their effect on the table. `update_user` and `delete_user` take the user by id, since the model has no object identity.
- `uuid4` is an input (the new row's id); its uniqueness is not assumed, and a clash is rejected by the id check.
- String column lengths (36, 255, 100) are not enforced.
- `UserService.UpdateRows`: assignments are typed by column, so a value of the wrong type, or None for a non-null column, cannot be expressed. A keyword naming a non-column attribute, covered by `SetOther`, leaves the row unchanged.
- `UserService.CreateRows`: exceptions other than the unique-constraint violations (hashing failure, database errors) are not modelled.
- `UserService.DeleteRows`: a failing commit, which would make `delete_user` return False, is not modelled.
