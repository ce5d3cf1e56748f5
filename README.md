# MCstatus status and presence core, in Dafny

MCstatus is a Discord bot that keeps one message in a designated channel up to
date with the status of a Minecraft server. It also answers "when was this
player last online?" queries. This project models the part of the bot that
decides things:

- **Status text and presence ledger** (`create_status_message`). From one
  server status query, or a failed one, it builds the status text. The text
  has a `Last updated: <now>` header, a player-count and latency line, and a
  sorted, numbered list of the sampled players. While listing, it records
  every sampled player in the process-wide ledger `players_last_login`, with
  time `now`. The imperative form is the class `Bot.StatusBot`, whose field
  `playersLastLogin` is the ledger. Its methods are proved against the value
  functions `StatusText.Render` and `StatusText.Observe`.
- **Message routing** (`on_message`), as the pure function `Routing.Route`.
  For each received message it decides one of three actions:
  - ignore it;
  - delete it after one second;
  - reply with the last-seen answer (the reply expires after ten seconds),
    then delete the query after one second.
- **Argument extraction** (`get_arguments`, Python's `content.split(' ')`)
  and the reply text built from the ledger.
- **The start-up scan** (`on_ready`). It walks the newest 100 channel messages
  and keeps the first one that can still be fetched. When none can be
  fetched, it sends a fresh status text. Also one round of the update loop
  (`edit_message_and_sleep`).

Python helpers are modelled explicitly:

- `str()` of an integer is `Text.IntToString`, with a round-trip proof.
- `str.split(' ')` is `Text.Split`, proved inverse to `Text.Join`.
- `str.startswith` is Dafny's prefix relation `<=`.
- `sorted` on names is the insertion sort `NameOrder.SortNames`, ordered by
  code point like Python's `str` comparison. It is proved to be the unique
  ascending permutation.

The following are parameters of the model:

- the server query result: `Option<Snapshot>`, where `None` means the query
  raised;
- the clock readings `now` and `startTime`, as opaque strings;
- the configuration values `BOT_CHANNEL`, `CMD_CHAR` and
  `LAST_CONNECTIONS_CMD` (`Routing.Config`);
- the outcome of re-fetching each history message (`Locate.Fetch`);
- whether the chat service accepts an edit.

The model follows the code, including these points where the code may
surprise a reader:

- The count line reads `The server has <online>/<max> players and replied in
  <latency> ms`.
- The start-up scan takes the first fetchable message in the window whoever
  wrote it and whatever it says. It does not look for a bot-authored message
  that starts with the status header.
- When the scan finds nothing, the freshly sent status message is not kept as
  the message to edit. The edit target stays `None`, so every later edit
  fails quietly (`OnReady`, `SyncTick`).
- The last-connection command is recognised by `content.startswith(token)`,
  not by an exact match on the first word. The argument is the second piece
  of `split(' ')`, which is empty after two consecutive spaces.
- The handler's first branch (a bot message that starts with the header) is
  ignored in every channel. Any other bot message in the bot channel is
  deleted, and that includes the bot's own replies (`OwnReplyDeleted`).

## Model

| member | source | states |
|---|---|---|
| Text.NatToString | MCstatus.py:94 | `str(n)` of a non-negative number is a non-empty digit string with no leading zero except for 0 itself; `NatToStringDigits` and `NatToStringRoundTrip` give its digits and its value |
| Text.IntToString | MCstatus.py:88 | `str(i)` of an integer is non-empty and starts with `-` exactly when the integer is negative |
| Text.IntToStringRoundTrip | MCstatus.py:88 | reading back `str(i)` gives `i`, so the count, maximum, latency and list numbers are printed without loss |
| Text.NatToStringRoundTrip | MCstatus.py:94 | the decimal digits of a non-negative number read back to that number |
| Text.NatToStringDigits | MCstatus.py:94 | `str(n)` of a non-negative number consists of decimal digits only |
| Text.Split | MCstatus.py:113 | `split(' ')` yields at least one piece and no piece contains the separator |
| Text.SplitJoin | MCstatus.py:113 | joining the pieces of `split(' ')` with a space restores the message text |
| Text.JoinSplit | MCstatus.py:113 | splitting a space-join of space-free pieces gives back exactly those pieces |
| Text.SplitHasSecondPiece | MCstatus.py:113 | the split has a second piece if and only if the text contains a space |
| NameOrder.Below | MCstatus.py:93 | Python's `<=` on `str`, code point by code point with a proper prefix first; `BelowReflexive`, `BelowTotal`, `BelowAntisymmetric` and `BelowTransitive` make it the total order `sorted` needs |
| NameOrder.Insert | MCstatus.py:93 | inserting a name keeps every name and adds that one; `InsertSorted` keeps the list ascending |
| NameOrder.SortNames | MCstatus.py:93 | sorting keeps exactly the sampled names, each as many times as it occurs |
| NameOrder.SortNamesSorted | MCstatus.py:93 | the sorted names are in ascending code-point order |
| NameOrder.SortedUnique | MCstatus.py:93 | two ascending arrangements of the same names are identical, so the sorted order is fully determined |
| NameOrder.SortNamesIgnoresOrder | MCstatus.py:93 | the sorted names do not depend on the order in which the server lists its sample |
| NameOrder.BelowTotal | MCstatus.py:93 | any two names are comparable under the string order the sort uses |
| NameOrder.BelowTransitive | MCstatus.py:93 | the string order the sort uses is transitive |
| NameOrder.BelowAntisymmetric | MCstatus.py:93 | two names that are each below the other are equal |
| StatusText.Header | MCstatus.py:81 | the first line, `Last updated: <now>`; `RenderStartsWithHeader` puts it at the start of every status text |
| StatusText.CountLine | MCstatus.py:88 | the count and latency line `The server has <online>/<max> players and replied in <latency> ms`, the integers printed by `IntToString` (read back losslessly by `IntToStringRoundTrip`) |
| StatusText.PlayerEntry | MCstatus.py:94 | one list line, `\n<index>) <name>`; `PlayerLinesAt` places it at its position |
| StatusText.PlayerEntries | MCstatus.py:92-96 | the list lines for a name list, numbered upwards from a start; `PlayerLinesAt` gives line k as number `first + k` and name `names[k]` |
| StatusText.Render | MCstatus.py:80-96 | the status text for one query; `RenderStartsWithHeader`, `RenderQueryFailed`, `RenderSampleAbsent`, `RenderSampleEmpty`, `RenderSamplePresent` and `RenderIgnoresSampleOrder` state it case by case |
| StatusText.RecordAll | MCstatus.py:93-95 | the ledger after recording a list of names one by one; `RecordAllSpec` states its keys and values |
| StatusText.Observe | MCstatus.py:89-95 | the ledger after one render; `ObserveSpec` states that exactly the sampled players are set to `now` and nothing else changes |
| StatusText.RecordAllSpec | MCstatus.py:93-95 | after recording a list of names, each listed name maps to `now`, every other key keeps its value, and no key is removed |
| StatusText.ObserveSpec | MCstatus.py:89-96 | after rendering, every sampled player maps to `now`, every other entry is unchanged and nothing is removed; a failed query or absent sample changes nothing |
| StatusText.RenderStartsWithHeader | MCstatus.py:80-81 | every status text begins with `Last updated: <now>` and a newline, on success and on failure |
| StatusText.RenderQueryFailed | MCstatus.py:83-86 | a failed query gives exactly the header followed by `Could not get data from the server...` |
| StatusText.RenderSampleAbsent | MCstatus.py:88-90 | without a player sample nothing follows the count and latency line |
| StatusText.RenderSampleEmpty | MCstatus.py:89-91 | an empty sample gives the list heading and no list line |
| StatusText.RenderSamplePresent | MCstatus.py:88-96 | with a sample, the heading is followed by one line per sampled name, in ascending order, numbered from 1 |
| StatusText.PlayerLinesAt | MCstatus.py:92-96 | the list line at position k reads `\n<first+k>) <names[k]>`, so the numbering is contiguous and follows the list order |
| StatusText.RenderIgnoresSampleOrder | MCstatus.py:93-95 | the status text and the ledger do not depend on the order of the server's sample |
| StatusText.RenderExample | MCstatus.py:78-96 | Bob and Alice sampled at one time are listed as `1) Alice`, `2) Bob`, and both are recorded at that time |
| Locate.Window | MCstatus.py:23 | the scan sees the newest `min(length of the history, 100)` messages, a prefix of the newest-first history |
| Locate.FirstFetched | MCstatus.py:24-31 | the result is the first entry whose fetch succeeded, regardless of author or content; it is `None` exactly when every fetch failed |
| Locate.LocateScan | MCstatus.py:24-31 | the scan loop with `break` returns the first fetchable message of the window |
| Routing.GetArguments | MCstatus.py:112-113 | the pieces of `split(' ')` after the first; `SplitHasSecondPiece` and `Split` make them non-empty exactly when the text has a space, and space-free |
| Routing.PlayerArgument | MCstatus.py:47-48 | the first argument, `None` where `get_arguments(...)[0]` raises; `PlayerArgumentExists` and `PlayerArgumentOf` say when it exists and what it is |
| Routing.ReplyText | MCstatus.py:50-54 | the answer naming the ledger time, or the start time for an unrecorded name; `ReplyAfterObserve`, `RouteUnseenPlayer` and `OwnReplyDeleted` state it |
| Routing.IsStatusMessage | MCstatus.py:43 | a bot message starting with `Last updated: `; `RenderedStatusIgnored` shows every rendered status text is one, `NotStatusHeader` that no reply is |
| Routing.Route | MCstatus.py:43-67 | the decision of `on_message`; `RouteIgnoreIff`, `RouteReplyIff` and `RouteDeleteIff` give each of its three outcomes both ways |
| Routing.PlayerArgumentExists | MCstatus.py:47-48 | a query has an argument exactly when it contains a space, and the argument contains no space |
| Routing.PlayerArgumentOf | MCstatus.py:112-113 | the argument is the text between the first space and the next space or the end, so it may be empty |
| Routing.RouteIgnoreIff | MCstatus.py:43-67 | a message is left alone exactly when it is a bot message starting with the header (in any channel) or is outside the bot channel |
| Routing.RouteReplyIff | MCstatus.py:45-58 | a reply is sent exactly for a non-bot message in the bot channel that starts with the prefix and the command token and contains a space; the reply is the ledger answer for the argument, kept 10 s, and the query is deleted after 1 s |
| Routing.RouteDeleteIff | MCstatus.py:59-67 | every other message in the bot channel is deleted after 1 s, including argument-less queries, unknown commands and the bot's other messages |
| Routing.RenderedStatusIgnored | MCstatus.py:43-44 | any status text the bot renders is left alone when it arrives, in any channel |
| Routing.OwnReplyDeleted | MCstatus.py:51-67 | the bot's own reply never starts with the status header, so it is deleted after 1 s when it arrives in the bot channel |
| Routing.ReplyAfterObserve | MCstatus.py:51-54 | a player in the latest sample is reported as last online at that render's time; a player never recorded is reported with the start time |
| Routing.RouteUnseenPlayer | MCstatus.py:46-56 | with an empty ledger, `<command> <name>` is answered with `<name> wasn't online since <start time>.` |
| Bot.StatusBot.constructor | MCstatus.py:14-15 | the ledger starts empty and the start time is fixed at start-up |
| Bot.StatusBot.CreateStatusMessage | MCstatus.py:78-99 | the built text is the status text for the query, and the new ledger is the old one with every sampled player recorded at `now` |
| Bot.StatusBot.ListPlayers | MCstatus.py:92-96 | the listing loop's counter and text give one numbered line per sorted name, and it records each name as it lists it |
| Bot.StatusBot.OnReady | MCstatus.py:19-34 | the edit target is the first fetchable message among the newest 100; when there is none, one fresh status text is sent, the ledger is updated, and the edit target stays `None` |
| Bot.StatusBot.OnMessage | MCstatus.py:40-67 | the bot handles a message with the routing decision for its current ledger and its start-up time |
| Bot.StatusBot.SyncTick | MCstatus.py:102-109 | one loop round renders a fresh text and updates the ledger; the edit lands only when there is a target and the service accepts it, and otherwise it fails quietly |

## Left out

- The Discord client itself is not modelled: sessions, event registration,
  `async`/`await`, history paging, and the `send`, `edit` and `delete` calls.
  These are library I/O. Their outcomes are inputs (`Fetch`, `editAccepted`)
  or `Routing.Action` values.
- The endless update loop and the five-second `time.sleep` are scheduling
  behaviour, and they are not modelled. `SyncTick` models one round. The model
  therefore does not capture a consequence of that scheduling: `time.sleep`
  blocks the event loop, and the server query is synchronous. On the path
  where the scan finds no message, the edit of `None` raises before anything
  is awaited. So once the fresh status text is sent, the loop never yields
  and no further event is handled. On that path `OnMessage` (and the
  decisions of `Routing.Route`) are never reached, although the model lets
  them be taken.
- The `mcstatus` network query is an input of type `Option<Snapshot>`.
  Float rounding of the latency is not modelled: the latency is taken as an
  already rounded integer.
- The wall clock (`datetime.now().strftime`) is not modelled: `now` and the
  start time are opaque strings.
- The `.env` configuration loading is not modelled. The three values are a
  `Config`, assumed present.
- `get_channel` is not modelled: it searches library guild objects, so the
  bot channel is identified by its name.
- `log` and `print` are console output only.
- `Locate.LocateScan` only models the not-found outcome of `fetch_message`.
  Any other error (forbidden, transport) would end `on_ready`, and that
  path is not modelled.
- `Routing.Route`: I/O failures inside the reply branch are not modelled.
  The handler would catch such a failure (a failed send, say) and fall
  back to deleting the query.
