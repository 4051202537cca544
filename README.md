# Matrix MCP server and quote agent: a Dafny model

This project models the parts of the Matrix MCP server and the interactive quote agent that make decisions:

- **The pending-response registry of `MatrixMCPServer`.** `wait_for_response` sends a message into a room and registers a pending response. The registry holds that response's future and its timeout task. The registry covers:
  - how an incoming room message is matched against the registered waits;
  - how a timeout fires;
  - what the waiter cleans up when it resumes;
  - what `cleanup` cancels at shutdown.
- **The decisions of `send_message`.** Whether the room alias is resolved, whether the server joins the room, and what is sent where.
- **The text of `list_rooms`.**
- **The quote agent's logic.** Its quote table, `get_quote_by_category`, and how it reads the reply of `wait_for_response` into a quote category.

The files are:

- `wrappers.dfy`: the `Option` and `Result` datatypes.
- `text.dfy`: the string operations the Python code relies on.
  - `str.join`
  - ASCII `str.lower`
  - the substring test `in`
  - counting characters
  - decimal rendering
- `send_path.dfy` (module `SendPath`):
  - The Matrix server the tool talks to is an abstract `ServerView`, which holds the alias table, the joined rooms and the rooms that accept a join.
  - `SendMessage` returns the calls the tool makes, in order, together with its reply or its error.
- `pending_responses.dfy` (module `PendingResponses`):
  - Each operation on the registry is a function on a `Registry` value.
  - The Python dict is kept as the insertion order of its keys plus the key-to-entry map.
  - Futures and timeout tasks are maps from handles to their state.
  - A trace of operations (`Step`, `Run`) is proved to keep three invariants:
    - the registry stays well formed;
    - a pending future always has a sleeping timer;
    - a completed future never changes.
  - The class `ResponseRegistry` holds the same state in fields. Each of its methods is proved to leave exactly the state that the matching function describes.
- `room_list.dfy` (module `RoomList`): the room lines and the `list_rooms` reply.
- `quote_agent.dfy` (module `QuoteAgent`): the quote table, the category lookup, and the classification of a reply.

Some behaviours of the Python code are easy to mistake. The model follows the code in each of them:

- **A second wait on the same room is accepted, not rejected.** Entries are keyed by room and loop time. A message resolves only the earliest-registered entry that matches it.
- **No membership check when joining is off.** With `join_if_needed` false, the code does not check whether the bot is in the room. It simply sends, and so does `SendPath.SendMessage`.
- **Aliases are not cached.** The code resolves an alias again on every call, and the model has no cache.
- **The reply is split at the first `": "`.** A comment in the quote agent says the *last* `": "`, but the code calls `split(": ", 1)`, which splits at the first. `QuoteAgent.ExtractMessage` follows the code.

## Model

| member | source | states |
|---|---|---|
| PendingResponses.Matches | matrix_mcp_server.py:171-176 | an entry never wants a message from another room; in its own room it wants every message when `response_from` is absent or empty, and otherwise exactly the messages from that sender |
| PendingResponses.FirstMatch | matrix_mcp_server.py:170-177 | the entry chosen for a message is the first one, in dict order, whose room matches and whose `response_from` (when set and non-empty) equals the sender; none is chosen only when no entry matches |
| PendingResponses.Delivered | matrix_mcp_server.py:164-194 | the registry after one incoming message: only entries that wanted the message are removed, and only when its sender is not the bot's own user; every remaining entry is unchanged, and no future or timer appears or disappears |
| PendingResponses.OwnMessageIgnored | matrix_mcp_server.py:166-167 | a message sent by the bot's own user changes nothing in the registry |
| PendingResponses.UnwantedMessageIgnored | matrix_mcp_server.py:170-176 | a message that matches no entry (wrong room or wrong sender) changes nothing |
| PendingResponses.DeliveryTakesEarliestMatch | matrix_mcp_server.py:178-194 | for the earliest matching entry: its key is removed from the order and the table; its future is resolved with the message body, sender, room and timestamp if still pending, otherwise left alone; its timer is cancelled if still sleeping; every other future and task is unchanged |
| PendingResponses.DeliveredWellFormed | matrix_mcp_server.py:164-194 | handling a message keeps the registry well formed: keys distinct, order and table agree, and every entry's future and timer exist |
| PendingResponses.Registered | matrix_mcp_server.py:254-273 | the registry after `wait_for_response` stores its entry: the key holds the new future's handle, that future is pending, its timer sleeps for the timeout, and the handle counter moves past it |
| PendingResponses.RegisteredSpec | matrix_mcp_server.py:254-273 | registering a wait stores the entry under its key with a fresh future (pending) and a fresh timer (sleeping for the timeout); a new key goes to the end of the dict order, a key already present keeps its place; every other entry, future and task is kept |
| PendingResponses.NewWaitDoesNotOvertake | matrix_mcp_server.py:170-194 | registering a wait under a new key does not change which entry an incoming message goes to when an older entry already wants it: the earliest-registered match wins |
| PendingResponses.RegisteredWellFormed | matrix_mcp_server.py:254-273 | registering keeps the registry well formed, also when the key is already present and its entry is replaced in place |
| PendingResponses.DeadlineFired | matrix_mcp_server.py:259-262 | the registry after a timeout task wakes: entries and the handle counter are unchanged, no future or timer appears or disappears, and the woken timer is no longer sleeping |
| PendingResponses.DeadlineSpec | matrix_mcp_server.py:259-262 | when the timer fires, a pending future becomes timed out with the timeout's seconds; a completed future, every other future, every other timer and all entries are unchanged; the timer is no longer sleeping |
| PendingResponses.DeadlineCompletes | matrix_mcp_server.py:259-264 | in a live registry, the deadline of a pending future always completes it with a timeout |
| PendingResponses.Resumed | matrix_mcp_server.py:289-294 | the registry after the waiter's `finally` block: exactly its key has left the dict, every future is unchanged, and its timer is not sleeping |
| PendingResponses.ResumedSpec | matrix_mcp_server.py:289-294 | after the waiter's `finally` block its key is gone, the remaining keys keep their order, its timer is not sleeping, every future is unchanged, every other entry and task is kept, and the registry stays well formed |
| PendingResponses.ReplyText | matrix_mcp_server.py:281 | the reply starts with `Received response from ` and ends with the message received |
| PendingResponses.TimeoutText | matrix_mcp_server.py:287 | the timeout reply starts with `Timeout: ` and ends with the timeout's seconds in decimal followed by ` seconds` (the message raised at line 262) |
| PendingResponses.OutcomeOf | matrix_mcp_server.py:277-288 | a cancelled future yields no reply (its cancellation propagates); a resolved future yields the reply `Received response from …` ending with the message that resolved it; a timed-out future yields the timeout text for its seconds |
| PendingResponses.CancelFuturesAt | matrix_mcp_server.py:353-355 | shutdown cancels a future exactly when an entry still owns it and it is not done; any other future keeps its state |
| PendingResponses.CancelFuturesKeys | matrix_mcp_server.py:353-355 | cancelling futures at shutdown neither adds nor removes a future |
| PendingResponses.CancelTasksAt | matrix_mcp_server.py:356-357 | shutdown cancels a timer exactly when an entry still owns it and it is still sleeping; any other timer keeps its state |
| PendingResponses.CancelTasksKeys | matrix_mcp_server.py:356-357 | cancelling timers at shutdown neither adds nor removes a timer |
| PendingResponses.CleanedUp | matrix_mcp_server.py:352-359 | the registry after `cleanup`: the dict is empty and no future or timer appears or disappears |
| PendingResponses.CleanedUpSpec | matrix_mcp_server.py:347-359 | after `cleanup`, the dict is empty, every pending future of an entry is cancelled, every completed one is kept, no entry's timer is sleeping, and nothing not owned by an entry changes |
| PendingResponses.SettledTransitive | matrix_mcp_server.py:179-186 | "a completed future never changes" carries over from one step to the next |
| PendingResponses.StepSpec | matrix_mcp_server.py:164-359 | every operation (register, message, deadline, resume, shutdown) keeps the registry well formed, never changes a completed future, and leaves no pending future without a sleeping timer |
| PendingResponses.CleanupLive | matrix_mcp_server.py:352-359 | after shutdown no future is left pending without a sleeping timer |
| PendingResponses.RunSpec | matrix_mcp_server.py:164-359 | the three invariants hold after any sequence of operations, and no completed future changes along the way |
| PendingResponses.ResponseRegistry.constructor | matrix_mcp_server.py:38 | the server starts with an empty registry that satisfies the invariants |
| PendingResponses.ResponseRegistry.Register | matrix_mcp_server.py:254-273 | updates the fields to exactly `Registered` of the old state and keeps the invariants; returns the key and a fresh handle whose future is pending |
| PendingResponses.ResponseRegistry.BeginWait | matrix_mcp_server.py:237-273 | sends with `join_if_needed` true; if the send fails, nothing is registered and the state is unchanged; otherwise the room is resolved again and the wait is registered under the resolved room id |
| PendingResponses.ResponseRegistry.CheckPendingResponses | matrix_mcp_server.py:164-194 | leaves exactly the state `Delivered` describes: the client's own messages are ignored, the earliest match is settled and removed, and the invariants hold |
| PendingResponses.ResponseRegistry.FindMatch | matrix_mcp_server.py:170-177 | the loop over the entries, in dict order, returns the position of the first entry that wants the message, or none when no entry does; it changes nothing |
| PendingResponses.ResponseRegistry.Settle | matrix_mcp_server.py:178-193 | for the matched entry: resolves its future with the message if not done, cancels its timer if not done, and deletes the entry from the dict, leaving the other fields unchanged |
| PendingResponses.ResponseRegistry.FireTimeout | matrix_mcp_server.py:259-262 | leaves exactly the state `DeadlineFired` describes and keeps the invariants |
| PendingResponses.ResponseRegistry.FinishWait | matrix_mcp_server.py:275-294 | once the future is done, returns the outcome it holds, removes the key, stops the timer, and keeps the invariants |
| PendingResponses.ResponseRegistry.Release | matrix_mcp_server.py:289-294 | the `finally` block leaves exactly the state `Resumed` describes: the key is deleted if still present and the timer cancelled if not done |
| PendingResponses.ResponseRegistry.Cleanup | matrix_mcp_server.py:352-359 | leaves exactly the state `CleanedUp` describes (every entry's future and timer cancelled if not done, then the dict cleared) and keeps the invariants |
| PendingResponses.ResponseRegistry.CancelEntries | matrix_mcp_server.py:353-357 | the loop over the entries, in dict order, leaves the futures and timers exactly as `CancelFutures` and `CancelTasks` describe and changes no entry |
| SendPath.ResolveRoom | matrix_mcp_server.py:203-210 | a room starting with `#` is looked up in the alias table and fails when the alias is unknown; any other room is used as the id unchanged |
| SendPath.SendMessage | matrix_mcp_server.py:196-224 | `send_message` makes between one and four server calls; when it succeeds the last call is the send; it fails only with an unknown alias or a rejected join of the room as given |
| SendPath.AliasLookedUpIffHash | matrix_mcp_server.py:204-210 | the alias is resolved exactly when the room starts with `#`, and only that alias is resolved |
| SendPath.JoinDecision | matrix_mcp_server.py:212-216 | the joined rooms are fetched exactly when the room resolves and `join_if_needed` is true; the room is joined, by the caller's own room string, exactly when that is so and the resolved id is not joined |
| SendPath.SentToResolvedRoom | matrix_mcp_server.py:196-224 | the send succeeds exactly when the room resolves and any join needed is accepted; then the message is the last call, goes to the resolved id, and the reply names the room as given; a failed send sends nothing |
| RoomList.RoomLine | matrix_mcp_server.py:321-336 | a room's line starts with the room id, and it is either the bare id or ends with the closing parenthesis of the display parts |
| RoomList.RoomLineShapes | matrix_mcp_server.py:321-336 | a room's line is its id followed by `(name \| alias)`, `(name)` or `(alias)`, depending on which of the two are present and non-empty; it is the bare id when neither is, or when the alias lookup failed |
| RoomList.ListRooms | matrix_mcp_server.py:300-341 | the loop produces the header `Joined rooms (n):` with the room count, followed by the room lines joined by newlines, in the order of the joined rooms |
| RoomList.ListingLineCount | matrix_mcp_server.py:338-341 | when no id, name or alias holds a newline, the listing after the header has exactly one line per joined room |
| RoomList.LineHasNoBreak | matrix_mcp_server.py:321-332 | a room line holds no newline when its id, name and alias hold none |
| Text.JoinWithSeparators | matrix_mcp_server.py:340 | joining parts that do not contain a one-character separator puts exactly one separator between each pair of neighbours |
| Text.Lower | interactive_quote_agent.py:212 | lowercasing keeps the length and maps each character on its own |
| QuoteAgent.QuoteTableShape | interactive_quote_agent.py:35-64 | the table has exactly the four categories, five quotes each, and no `random` key |
| QuoteAgent.GetQuoteByCategory | interactive_quote_agent.py:66-75 | the quote comes from the category returned; a known category is returned as asked; `random` or an unknown category yields some table category |
| QuoteAgent.SepIndex | interactive_quote_agent.py:211-212 | finds the first position of `": "`, or reports that there is none |
| QuoteAgent.ContainsSep | interactive_quote_agent.py:211-212 | the test `": " in result` holds exactly when the split finds a separator |
| QuoteAgent.ExtractMessage | interactive_quote_agent.py:210-214 | the extracted message is lowercase |
| QuoteAgent.CategoryFor | interactive_quote_agent.py:218-228 | the category is `motivation` exactly when `motivat` occurs; `wisdom` exactly when `motivat` does not and `wisdom` or `wise` does; and so on in priority order; otherwise `random` |
| QuoteAgent.ChooseCategory | interactive_quote_agent.py:207-228 | the category chosen from the agent's reply is always `random` or a key of the quote table |
| QuoteAgent.MenuWordsSelectThemselves | interactive_quote_agent.py:219-228 | replying with a category's own name, or with `random`, selects that category |
| QuoteAgent.SepIndexLower | interactive_quote_agent.py:208-214 | lowercasing does not move the first `": "` |
| QuoteAgent.CaseInsensitive | interactive_quote_agent.py:208-228 | two replies that differ only in letter case give the same message and the same category |
| QuoteAgent.MenuReplySelects | interactive_quote_agent.py:207-228 | a user who answers with a menu word, in any letter case, gets that category from the server's reply text |
| QuoteAgent.ResolvedReplyRoundTrip | interactive_quote_agent.py:207-214 | what `wait_for_response` returns for a resolved wait (matrix_mcp_server.py:281) reads back, in the agent, as the lowercased message, when the sender id holds no `": "` |
| QuoteAgent.ReplyRoundTrip | interactive_quote_agent.py:207-214 | for the server's reply text `Received response from <sender>: <message>`, with a sender that holds no `": "` (a Matrix user id holds no space), the extracted message is the lowercased message |

## Left out

- The MCP protocol layer is not part of this model: tool schemas, `list_tools`, `call_tool` dispatch, the stdio transport and `main`. These only route arguments to the modelled operations.
- `_initialize_client` is not part of this model: it reads the environment, logs in, hooks the message handler and sleeps while syncing. The model starts from the client's own user id, which is a parameter.
- `chatcli.SimpleChatClient` and the mautrix client are not part of this model. Their answers are the abstract inputs `SendPath.ServerView` and `RoomList.RoomInfo`. Network failures other than an unknown alias or a rejected join are left out.
- The asyncio runtime is left out. Futures and tasks are explicit states, and the interleaving of coroutines is an arbitrary sequence of `Op` steps.
- The exception a timeout raises is not modelled. It is `TimedOut(seconds)` instead, and `OutcomeOf` renders it as `TimeoutText`.
- Loop times and timeouts are floats in the source; they are natural numbers here.
- Logging is left out.
- `PendingResponses.ResponseRegistry.BeginWait` resolves the alias a second time against the same `ServerView`, so the model assumes both lookups give the same answer.
- `Text.Lower`: lowercasing is ASCII only. Python's Unicode case mapping is not modelled.
- `QuoteAgent.GetQuoteByCategory`: `random.choice` is an arbitrary choice, so the model does not capture the uniform distribution.
- The quote agent's console and agent loop are not part of this model, and neither are its other files: argument parsing, `agent.run` driving the language model, `input()`, and the messages it prints. The model takes the text `agent.run` returns as input. `quote_agent_example.py` and `setup_verification.py` are also not part of this model.
- Argument defaults are not modelled: `join_if_needed=True` (matrix_mcp_server.py:200), `timeout_seconds=300` (matrix_mcp_server.py:234) and `category="random"` (interactive_quote_agent.py:66). The model takes all three as required parameters.
- `RoomList.ListRooms`: a failure of `get_joined_rooms` itself (the whole tool raises) is not modelled. A failed room-name lookup counts as "no name", and a failed alias lookup as the bare-id line.
