# Holly core, modelled in Dafny

Holly is a bridge between a web chat client and local TCP clients. A browser
session scrapes the chat list. The bridge then picks the first conversation
that is unread, or not yet tracked while fewer than 20 are tracked. It
samples that conversation's messages and asks a per-conversation cache which
of them are new. Each new message is fanned out to every connected TCP
client. Clients write JSON records back, which are either chat messages to
send or sentinel commands (`<screenshot>`, `<html>`, `<restart>`,
`<refresh>`, `<file>`). One such request is served per cycle. An error
counter ends a run on the eleventh counted failure. A supervisor restarts
runs. It panics on two crashes in a row, with no normal end between, that
both come fewer than 61 seconds (at most 60 whole seconds) after the last
recorded error.

This project models the sequential logic of that core and proves its
properties:

- `chat.dfy` (module `Chat`) covers the message record, the comma-split
  extraction of messages from scraped element text, the clean-up pass and the
  truncated `Debug` view.
- `cache.dfy` (module `MessageCache`) covers the cache. It is a class over a
  `map<string, seq<ChatMessage>>`. Its `Check` method keeps the source's scan
  loop and is proved against the specification function `CheckSpec`. That
  function is built on `Align`, the number of leading sample messages the
  forward scan matches. `Align` is proved to be the longest prefix of the
  sample that occurs, in order, in the stored list.
- `framing.dfy` (module `Framing`) covers how a chunk read from a client is
  cut into packets on `"}{"` with the braces reattached.
- `relay.dfy` (module `Relay`) covers two pieces:
  - the registry of outbound queues, whose `Broadcast` is the `retain` loop
    that drops every queue a send fails on;
  - the shared request queue, which the read arm of each connection task
    fills.
- `orchestrator.dfy` (module `Orchestrator`) covers one run of `entry`:
  - admission, processing of the first admitted chat, fan-out of what the
    cache reports, the error budget and the dispatch of one request;
  - the imperative class `Run` with its loops;
  - the specification functions `PollSpec`, `DispatchSpec`, `CycleSpec` and
    `RunSpec`, which those loops are proved against.

  Browser calls are replaced by a `Replies` record per cycle. The calls
  made are logged in order, so contracts can say which calls happen.
- `supervisor.dfy` (module `Supervisor`) covers the restart/panic loop of
  `main`, with clock readings as inputs.
- `sequences.dfy` (module `Sequences`) holds the order-preserving filter
  that both `retain` calls perform, with its membership and subsequence
  lemmas.
- `wrappers.dfy` (module `Wrappers`) holds `Option`.

The model keeps these behaviours of the code:

- **Early exit in `check`** (src/cache.rs:82-85). When the sample is used up
  before the stored list, `check` returns `None` and does not store the
  sample.
- **Mark-as-read click** (src/main.rs:156-158). If the "Mark as read" button
  is found but clicking it fails, `?` ends the run with that error.
- **Diagnostics** (src/main.rs:215-234). A failed screenshot or HTML log is
  counted against the error budget.
- **Fan-out** (src/main.rs:205). A full outbound queue blocks the send rather
  than failing it. Only a queue whose connection task has ended fails, and
  is dropped.
- **Failed click** (src/main.rs:146-151). When clicking the chat fails but
  the refresh succeeds, the cycle goes on to process the same chat.
- **`<refresh>` request** (src/main.rs:237). A failed refresh ends the run at
  once and is not counted.

## Model

| member | source | states |
|---|---|---|
| `Chat.Split` | src/chat.rs:117 | Splitting on a character yields at least one part, and no part contains the separator. |
| `Chat.SplitJoin` | src/chat.rs:117 | Joining the parts with the separator gives back the text, and there is one part more than there are separators. |
| `Chat.Trim` | src/chat.rs:119-122 | The result is a slice of the input with only whitespace around it and no whitespace at either end. |
| `Chat.TrimStart` | src/chat.rs:119-122 | The reference one-sided trim: the result is a suffix of the input, everything dropped is Unicode whitespace, and the result does not start with whitespace. |
| `Chat.TrimEnd` | src/chat.rs:119-122 | The reference one-sided trim: the result is a prefix of the input, everything dropped is whitespace, and the result does not end with whitespace. |
| `Chat.TrimIsStartThenEnd` | src/chat.rs:119-122 | Trimming both ends equals trimming the start and then the end, and equally the end and then the start. |
| `Chat.ExtractMessages` | src/chat.rs:112-134 | The loop with its carried sender returns exactly `Extracted(blobs, chatId)`. |
| `Chat.FourPartsNameSender` | src/chat.rs:117-120 | A 4-part blob makes its trimmed part 0 the sender and gives its trimmed part 2 as content. |
| `Chat.OtherPartsKeepSender` | src/chat.rs:121-125 | Any other blob keeps the previous sender. A 2-part blob gives its trimmed part 0 as content; other part counts give none. |
| `Chat.ExtractedFiltered` | src/chat.rs:127-133 | No extracted message has sender `""` or `"You"`, and every one carries the chat id passed in. |
| `Chat.ExtractedOrigins` | src/chat.rs:112-134 | The extracted messages are exactly those of the kept blobs, one per kept blob, in blob order. |
| `Chat.Clean` | src/chat.rs:140-142 | Clean-up replaces the content by its transliteration and leaves sender and chat id unchanged. |
| `Chat.DebugText` | src/chat.rs:156-161 | Content of at most 50 characters is shown unchanged; longer content as its first 50 characters plus `...`; never more than 53 characters. |
| `Chat.Debug` | src/chat.rs:154-166 | The Debug view shows the truncated content and the chat id. |
| `MessageCache.Align` | src/cache.rs:59-68 | The number of matched sample messages is bounded by both lengths. |
| `MessageCache.AlignMonotone` | src/cache.rs:63-67 | Scanning more of the stored list never matches fewer messages. |
| `MessageCache.AlignEmbeds` | src/cache.rs:63-67 | The matched prefix of the sample occurs, in order, at increasing positions of the stored list. |
| `MessageCache.AlignIsLongest` | src/cache.rs:63-67 | Any prefix of the sample that occurs in order in the stored list is no longer than the matched prefix. |
| `MessageCache.Cache.constructor` | src/cache.rs:19-23 | A new cache is empty and has seen no chat. |
| `MessageCache.Cache.Check` | src/cache.rs:25-87 | The two-index scan stays in bounds and ends. The new map and the report equal `CheckSpec` of the old map, and the chat id joins the ids seen. |
| `MessageCache.Cache.CheckKey` | src/cache.rs:89-91 | True exactly for chat ids passed to `Check` before; it reads the cache only. |
| `MessageCache.Cache.Size` | src/cache.rs:93-95 | Equals the number of distinct chat ids ever passed to `Check`; it reads the cache only. |
| `MessageCache.CheckUnseen` | src/cache.rs:30-36 | An unseen id reports nothing and stores the sample verbatim; the id is then tracked and the size grows by one. |
| `MessageCache.CheckStoredEmpty` | src/cache.rs:39-42 | A stored empty list is treated like an unseen id. |
| `MessageCache.CheckEmptySample` | src/cache.rs:44-47 | An empty sample against a non-empty stored list reports nothing and changes nothing. |
| `MessageCache.CheckIdempotent` | src/cache.rs:49-51 | Checking the stored list again reports nothing and changes nothing. |
| `MessageCache.CheckShortSample` | src/cache.rs:82-85 | A sample found in order inside the stored list minus its last message reports nothing, and the stored list stays. |
| `MessageCache.CheckStrongAlignment` | src/cache.rs:69-72 | With more than 3 matched messages, the sample is stored and exactly the unmatched tail is reported, which may be empty. |
| `MessageCache.CheckWeakAlignment` | src/cache.rs:73-79 | With at most 3 matched messages, the sample is stored. The report is `[last new]` if the last messages differ, else nothing. |
| `MessageCache.CheckFrame` | src/cache.rs:25-87 | `check` never removes a chat and leaves other chats' lists alone. Any report is a suffix of the sample. |
| `MessageCache.CheckAllTracks` | src/cache.rs:25-37 | After any sequence of checks, the tracked ids are exactly the ids checked. |
| `MessageCache.WeakAlignmentExample` | src/cache.rs:63-79 | Stored `[a,b,c]` against sample `[b,c,d,e]` reports only `[e]`. |
| `MessageCache.StrongAlignmentExample` | src/cache.rs:63-72 | Stored `[a..e]` against sample `[a..g]` reports `[f,g]`. |
| `Framing.SplitRecords` | src/main.rs:80 | Splitting on `"}{"` gives at least one part, and no part contains `"}{"`. |
| `Framing.Reattach` | src/main.rs:81-92 | Every packet has at least 2 characters, starts with `{` and ends with `}`. |
| `Framing.SplitRecordsJoin` | src/main.rs:80 | Joining the parts with `"}{"` gives back the chunk, so the split loses nothing. |
| `Framing.SplitCount` | src/main.rs:80 | There is one part more than there are occurrences of `"}{"`. |
| `Framing.PacketsShape` | src/main.rs:80-93 | A chunk yields occurrences + 1 packets, each starting with `{` and ending with `}`. |
| `Framing.RoundTrip` | src/main.rs:80-93 | Well-framed records written back to back come back as exactly those records, in order. |
| `Framing.InnerBraceBreaksRoundTrip` | src/main.rs:80-93 | Records `{a}}` and `{b}` come back as `{a}` and `{b}`, so the round trip needs the extra condition. |
| `Relay.SurvivorsSpec` | src/main.rs:205 | A queue survives a broadcast exactly when it was registered and its send did not fail. Survivors keep their order, at exactly the positions that did not fail. |
| `Relay.SurvivorsDistinct` | src/main.rs:205 | Survivors of a registry without repetitions have none either. |
| `Relay.SurvivorsTwice` | src/main.rs:205 | A second broadcast with the same failing queues drops no one else. |
| `Relay.DroppedStaysDropped` | src/main.rs:201-206 | A queue dropped by one broadcast is offered nothing by the next. |
| `Relay.Registry.constructor` | src/main.rs:44 | The registry starts empty. |
| `Relay.Registry.Accept` | src/main.rs:50-55 | A new connection's queue is appended under a handle never used before, with nothing delivered yet. |
| `Relay.Registry.Broadcast` | src/main.rs:201-206 | The registry becomes the order-preserving survivors. Every survivor received the message once; every other queue's log is unchanged. |
| `Relay.ForwardedAllParsed` | src/main.rs:95-102 | When every packet parses, the queued requests are the parsed messages, cleaned, in packet order. |
| `Relay.ChunkDelivers` | src/main.rs:80-102 | Well-framed records read in one chunk reach the request queue as exactly their messages, cleaned, in order. |
| `Relay.RequestQueue.constructor` | src/main.rs:46 | The request queue starts empty. |
| `Relay.RequestQueue.Enqueue` | src/main.rs:98 | Sent requests are appended in order. |
| `Relay.RequestQueue.TryRecv` | src/main.rs:213 | It returns the oldest pending request and removes it, or nothing when none is pending. |
| `Relay.RequestQueue.OnRead` | src/main.rs:71-107 | A failed or empty read ends the task, and non-UTF-8 bytes are ignored. Otherwise each packet that parses is cleaned and queued, in order. |
| `Relay.RequestQueue.SendParsed` | src/main.rs:95-102 | The queue grows by exactly the packets that parse, cleaned, in packet order. |
| `Orchestrator.AdmittedSpec` | src/main.rs:144 | A chat is admitted exactly when it is unread, or untracked while fewer than 20 chats are tracked. Admitted chats keep their list order. |
| `Orchestrator.AdmissionCap` | src/main.rs:144 | Once 20 chats are tracked, only unread chats are admitted. |
| `Orchestrator.RetainAdmissible` | src/main.rs:144 | The `retain`, which calls `CheckKey` and `Size` per chat, keeps exactly the admitted chats. |
| `Orchestrator.Classify` | src/main.rs:214-284 | Each of the five sentinel senders selects its own command, and only that sender does. Any other sender becomes a send of its content to its chat id. |
| `Orchestrator.CycleBudget` | src/main.rs:129-285 | A cycle logs at most two counted failures. It ends the run with a counted failure exactly when the counter passes 10; otherwise the counter stays at most 10. |
| `Orchestrator.RunBudget` | src/main.rs:121-289 | The counter equals the number of counted failures. A run ends with a counted failure exactly when that is the eleventh. |
| `Orchestrator.CycleTracks` | src/main.rs:144-195 | A cycle tracks at most one new chat, the first admitted one. |
| `Orchestrator.QuietChatNeverTracked` | src/main.rs:124-210 | Once 20 chats are tracked, a chat never seen unread is never tracked, over any number of cycles. |
| `Orchestrator.FanOutDelivers` | src/main.rs:195-208 | After fan-out, the registry is the survivors. Each surviving queue got all reported messages in order; the others got nothing. |
| `Orchestrator.DispatchServesOldest` | src/main.rs:213-285 | Only the oldest request is served. `<screenshot>` and `<html>` make their call and log it as a counted failure if it fails. `<restart>` ends the run with Ok, `<refresh>` ends it uncounted if the refresh fails, and `<file>` makes no call. Any other sender navigates, then sends only if navigation worked; each failure is logged. |
| `Orchestrator.DispatchFrame` | src/main.rs:213-285 | Serving a request never changes the cache or the registry. |
| `Orchestrator.ConnectSpec` | src/main.rs:48-55 | Connections accepted between cycles are appended to the registry with fresh consecutive handles and empty logs. The rest of the state, and what older queues accepted, is unchanged. |
| `Orchestrator.IdleCycle` | src/main.rs:145-154 | With no admissible chat, the poll makes only the chat-list call before dispatch, once the new connections have joined. |
| `Orchestrator.CycleProcessesFirst` | src/main.rs:144-146 | Otherwise the cycle clicks the first admitted chat right after reading the list. |
| `Orchestrator.Run.constructor` | src/main.rs:115-121 | A run starts with an empty cache, registry and queue and a zero counter. |
| `Orchestrator.Run.CountFailure` | src/main.rs:136-139 | The counter goes up by one and the failure is logged. The run ends with it exactly when the counter exceeds 10. |
| `Orchestrator.Run.FanOutAll` | src/main.rs:196-207 | Each reported message is broadcast in turn, as `FanOut` specifies. |
| `Orchestrator.Run.Poll` | src/main.rs:129-210 | The poll half of a cycle equals `PollSpec` and keeps cache and registry valid. |
| `Orchestrator.Run.ProcessChat` | src/main.rs:145-209 | Processing the first admitted chat equals `Process`. |
| `Orchestrator.Run.Sample` | src/main.rs:195-208 | Checking the sample and fanning out what the check reports equals `Sampled`, and cache and registry stay valid. |
| `Orchestrator.Run.Dispatch` | src/main.rs:213-285 | The dispatch half of a cycle equals `DispatchSpec`. |
| `Orchestrator.Run.AcceptAll` | src/main.rs:48-55 | Registering the connections accepted since the last cycle equals `Connect`, and the registry stays valid. |
| `Orchestrator.Run.Cycle` | src/main.rs:124-289 | One cycle equals `CycleSpec`, and valid state is kept unless the run ends. |
| `Orchestrator.Run.Loop` | src/main.rs:124-289 | The cycles of a run equal `RunSpec`. |
| `Orchestrator.Entry` | src/main.rs:115-289 | A run from a fresh state ends as `RunSpec` from `Fresh` says. |
| `Supervisor.Step` | src/main.rs:307-322 | A crash panics exactly when the flag is set and it comes fewer than 61 s (at most 60 whole seconds) after the last recorded error. A normal end only clears the flag. The recorded time changes only when a late crash records the resume instant. |
| `Supervisor.Supervise` | src/main.rs:303-323 | The loop returns the first run whose crash panics, or nothing when none does. |
| `Supervisor.PanicIsFinal` | src/main.rs:315 | After a panic, no later run changes the outcome. |
| `Supervisor.ErroredMeans` | src/main.rs:309-321 | The flag is set exactly after a crash within the window on a clear flag, and that crash keeps the recorded time. |
| `Supervisor.PanicMeans` | src/main.rs:309-317 | A panic at run k happens exactly when runs k-1 and k both crashed fewer than 61 s (at most 60 whole seconds) after the same recorded time, the first with the flag clear. |
| `Supervisor.NoPanicWithoutRepeat` | src/main.rs:303-323 | Without two crashes in a row there is no panic, and a normal end leaves the flag clear. |
| `Supervisor.LateCrashForgiven` | src/main.rs:309-313 | A crash 61 s or more after the recorded error is survived, clears the flag and records the resume instant. |
| `Supervisor.HalfSecondPastWindowPanics` | src/main.rs:309 | Elapsed time is truncated to whole seconds, so a repeated crash 60.5 s after the recorded error still panics. |

## Left out

- src/browser.rs is not part of this model: WebDriver automation, login, chromedriver, logging to files, typing. Each browser call is replaced by its reply in `Orchestrator.Replies`.
- children/testing.py, the configuration loader and the TCP listener set-up (src/main.rs:21-42) are I/O only.
- `ChatOption::get_all`, `ChatOption::click` and the DOM queries and retry loop of `ChatMessage::get` (src/chat.rs:30-107) are browser I/O. Extraction starts from the element texts.
- `ChatMessage::get` with `last == true` is not modelled. Its only caller (src/main.rs:161) passes `false`.
- JSON encoding and decoding: a parse is a function parameter, and packets are opaque strings.
- `unidecode` is a function parameter of `Chat.Clean`.
- Time and sleeps: the poll-interval wait, the latency wait before a send and the 30-second pause. The supervisor takes clock readings as inputs.
- Logging is modelled only as the list of counted failures.
- The file-send code after the `continue` at src/main.rs:243-260 is unreachable.
- Concurrency of the tokio tasks:
  - Requests queued by connection tasks during a cycle are the cycle's `arrivals`.
  - Connections accepted while a cycle runs join the registry at the start of the next cycle. `Replies.accepted` says how many.
  - The `spawn_blocking` fan-out tasks run in report order, within the cycle.
- Channel capacity (100) and the blocking of a full queue are not modelled. A send fails only for a connection in the cycle's `dead` set.
- The write arm of each connection task (serialising and flushing outbound messages) is not modelled. Its ending shows only as that connection's queue failing.
- Byte-level reads: a chunk arrives already decoded, or marked as not UTF-8. Its 4096-byte bound is not modelled.
- `Framing.RoundTrip`: stronger precondition than "starts with `{`, ends with `}`, contains no `}{`". It also requires that a record's second character is not `{` and its second-to-last is not `}`. `Framing.InnerBraceBreaksRoundTrip` shows that without this the split does not return the records (every serialised message starts with `{"` and ends with `"}`).
- `Orchestrator.FanOutDelivers`: the connections that fail are one set per cycle, the same for every reported message.
- `Orchestrator.Run.Loop`: models a finite prefix of the never-ending loop, one cycle per element of its input.
- `Supervisor.Supervise`: the runs themselves are not executed. Their endings are inputs.
