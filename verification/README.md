# KARMAX's protocols, modelled and proved

KARMAX is a daemon that reads its operator's chats, remembers what matters in them, and acts
for them. This project models, in Dafny, the parts of it that have to stay right over long
runs, through failures, deaths and interleavings, and proves that they do, or exactly when they
do not. `dafny verify dfyconfig.toml` checks all of it. Nothing of the daemon was executed. The
modules whose names end in `Facts` tell each operation again in its caller's terms, by what
goes in and what comes out.

**The chat syncer** (`ChatOrder`, `ChatSource`, `Syncer`, `SyncerLoop`, `SyncerSafety`,
`SyncerBudget`, `SyncerStarve`, `SyncerSources`, `SyncerFacts`, `GChatFacts`). A chat's
messages are read in batches in the order (time, id), a cursor per chat is saved after each
batch, and a tick serves many chats round-robin under a budget with a share for history.
`SyncerLoop` is the code's own shape: objects, fields, loops. Each of its methods is proved
against the functions of `Syncer`. About these: whatever ticks, errors, deaths and restarts
there are, the batches that were saved are exactly the messages between the start and the
cursor, once each, in order; the scheduler ends and keeps its shares; and, with a budget of
four batches or more, a chat reading its history is not starved, while below four it may be.
All of that rests on a contract for sources, an unread prefix, and nothing only at the end.
`Wacli` and `GChat` are proved to meet it, each from what its service promises: the newest
`limit` inside a window, and the oldest `limit` after a bound; `SyncerSources` puts runs of
ticks and each source together; and `WacliExact`, `GChat` and `ChatClient`, the layer between
the Chat reader and its service, say exactly when a source does not meet the contract.

**The event log and the clock** (`EventLog`, `EventFacts`, `Bus`, `Clock`, `ClockFacts`,
`Decimal`). Publishers, a durable subscriber, crashes and restarts are steps of one state
machine; `Bus` has the methods of the log, of publishers and of a subscriber, which carry that
machine's state with them: each is proved to be a run of it, and a wake channel to be one of
its generations. Timers publish into the log under derived ids.

**Captured requests and the DevTools connection** (`RequestRing`, `RingFacts`, `RequestStore`,
`Cdp`, `CdpConn`). The ring as values, with what every operation keeps; the store of shared
records and two indexes, proved to be that ring; the call and reply protocol over one socket as
a state machine, and the connection's own fields.

**Mailboxes** (`Mailbox`, `MailFacts`, `MailboxTable`). Deliveries, workers, idle timers and a
shutdown interleaved at every lock and channel operation.

**Saying it once** (`Dedup`, `DedupFacts`, `Sends`, `SendPath`, `SendFacts`). The duplicate
test and the guard; the outbound path as interleaved sends; the one-call form with its refusals
and effects.

**Permissions** (`Broker`, `BrokerFacts`, `Ceiling`, `BrokerDesk`). A look at the cache, an
unlocked read of the store and a write of the cache are three steps, and those of different
callers, and changes of the store, interleave; checks, spends and ceilings on top of them; the
broker's own fields and loops.

**Transcripts, memories, text** (`ChatLog`, `ChatFacts`, `Apply`, `ApplyFacts`, `Words`).

## What the proofs found

Where the code does not do what its comments or its neighbours take for granted, the code is
modelled as it is, a lemma gives an input that shows it, and the theorem beside it carries the
condition under which it does, exact wherever an exact one is named here.

- `Wacli.FullMinuteSkips`: a full page in a window of a minute or less is accepted
  (`internal/chatmemory/wacli.go:107`), so older unread messages of such a window are stepped
  over for good. `Wacli.MessagesSteppedOver` says that nothing else ever is, and
  `WacliExact.ReadRightExactly` for which histories it can happen.
- `GChat.TiesDecide`: the cursor is safe if and only if the service's page cuts messages of one
  instant in the order of their ids.
- `ChatClient.GogExactly`: one of the two ways Chat is asked lists the newest messages and
  drops those behind the bound, so of a space with more unread than one page the older are
  passed over for good. `ChatClient.GwsExactly`: the other drops deleted messages from a page,
  which can then look like the end of the space.
- `SyncerStarve.HistoryStarves`: a quarter of a budget of one to three is nothing, and live
  chats can keep a history chat waiting for ever.
- `Syncer.SameInstantWaits`: messages of a chat's last instant behind a cut are delayed until
  the chat is active again, not lost.
- `EventLog.UnrecordedStartMisses`: while no offset was ever recorded, neither by a
  registration nor by an acknowledgement, a restart passes over every event nobody has handled
  yet, for good; `EventLog.StartMissesExactly` says that it is only then.
- `Clock.RearmedTimerIsLost`, `Clock.MarkLosesExactly`: a timer re-armed between a sweep's read
  and its mark is marked fired and does not fire.
- `Mailbox.SendAfterUnlockStrands`: the comment at `internal/agent/mailbox.go:101-103` takes
  the send to be under the lock; it is after it, and an accepted event can be left in a channel
  nobody reads. `Mailbox.StrandsExactly` and `Mailbox.LockedStrandsNone` say exactly when.
- `RequestRing.LateBodyEmptiesRing`: bytes credited to an evicted record are never taken off,
  and once they exceed the budget the ring keeps nothing. `RequestRing.BudgetHoldsExactly` and
  `RequestRing.ToldOnceExactly` say exactly when. `RequestRing.FoundExactly`: a wire key used
  twice is lost with its first record, though the second is held.
- `Cdp.LateCallHappens`: a call that registers after the reader has left waits for its own
  context.
- `Dedup.LetInBesideExactly`, `Dedup.LongHoldFreesAnother`: a send of over a minute lets a
  second one in, and its release frees the second's claim. `Sends.TwoGoFromStart`: the history
  is read before the message is reserved. `Sends.BesideGoesFromStart`: rows written without a
  check are not waited for. `Sends.SecondGoesExactly`: when a second copy of words said within
  six hours goes out.
- `Broker.RevokedInFlightStillAllowed`: a caller that read its grants before a revocation
  caches them after it, and checks go by them for five seconds more;
  `Broker.ChangeIsSeenExactly` says exactly when. `Broker.RevokedForAllStillAllowed`: a change
  for the subject `*` drops no other subject's cached grants. `Broker.LowerBindsExactly`: of
  two ceilings the first in the order of text holds, and that is not always the lower.
- `Ceiling.OverlapsFromStart`: a spend reads the meter and books later with nothing held
  between, so `k` spends at once may book `k` times the ceiling, and by `Ceiling.CeilingIsKept`
  no more.

## Model

| member | source | states |
|---|---|---|
| Sorting.SortSorts | internal/chatmemory/chatmemory.go:128 | the stable sort leaves no later element that comes before an earlier one, for any strict weak order |
| Sorting.SortStable | internal/chatmemory/chatmemory.go:128 | elements neither of which comes first keep the order they had, so a sort with ties is one particular list |
| ChatOrder.CursorOrder | internal/chatmemory/chatmemory.go:106-118 | (time, id) is a total order, so of two cursors exactly one of before, equal, after holds, and passing is monotone in it |
| ChatOrder.UnreadOf | internal/chatmemory/chatmemory.go:121-131 | the loop and sort keep exactly the messages the cursor has not passed, in chat order |
| ChatOrder.UnreadOfHistory | internal/chatmemory/chatmemory.go:121-131 | of a whole history in order, what is unread is exactly the tail after the cursor |
| ChatOrder.AscendingUnique | internal/chatmemory/chatmemory.go:92-118 | a strictly ordered list of messages is determined by its members, which is why "the messages after the cursor" names one list |
| ChatSource.ClosedIsPrefix | internal/chatmemory/chatmemory.go:69-80 | unread messages closed towards the cursor are a prefix of the unread history: the contract every source has to meet |
| Wacli.Page | internal/chatmemory/wacli.go:119-146 | one query: bounds cut to the second, rows whose time does not parse dropped, the rest in chat order |
| Wacli.TruncIs | internal/chatmemory/wacli.go:132-133 | a bound is the start of the second it falls in |
| Wacli.DefaultLimit | internal/chatmemory/wacli.go:92-94 | a read that names no limit is of a hundred messages |
| Wacli.Messages | internal/chatmemory/wacli.go:90-117 | the narrowing and sliding loop ends (time to now, then the window) and returns exactly what the recursive search does, failures included |
| Wacli.PageWhole | internal/chatmemory/wacli.go:119-146 | over a server that answers with the newest `limit`, a page holds everything in its bounds if and only if no more than `limit` is there |
| Wacli.PageComplete | internal/chatmemory/wacli.go:104-112 | a page that is looked into rather than narrowed leaves out no message but one that shares 37 seconds with more than `limit`: the windows the loop comes to are a week halved, and the widest full one it looks into is of 36.9 seconds |
| Wacli.SearchFinds | internal/chatmemory/wacli.go:90-117 | the loop keeps: every unread message that shares no 37 seconds with more than `limit` is later than `from`; so what is returned is in order, new, and has stepped over none of them |
| Wacli.MessagesRight | internal/chatmemory/wacli.go:90-117 | with no 37 seconds holding more than `limit` messages, the answer is a prefix of the unread messages and is empty only when none is unread up to now |
| Wacli.MessagesSteppedOver | internal/chatmemory/wacli.go:90-117 | with no such hypothesis: nothing is invented or repeated, and every message stepped over shares 37 seconds with more than `limit` |
| Wacli.MessagesFaithful | internal/chatmemory/wacli.go:90-117 | the read meets the contract the syncer is proved against |
| Wacli.FullMinuteSkips | internal/chatmemory/wacli.go:104-112 | a hypothesis is needed: a full page in a window of a minute or less is accepted, and the oldest of three unread messages is stepped over for good |
| WacliExact.ClearIsRight | internal/chatmemory/wacli.go:90-117 | when no window the loop looks into, up to the first with news, holds an unread message with more than `limit` at its instant or later, the answer is right, whatever the server keeps of a full page |
| WacliExact.UnclearIsWrong | internal/chatmemory/wacli.go:90-117 | when one does, a server that gives the newest `limit` of every query, chosen for that message, is read wrongly from wherever the search has come to |
| WacliExact.ReadRightExactly | internal/chatmemory/wacli.go:90-117 | so the read is right over every such server if and only if that holds, which is asked of the history, the cursor, the clock and the limit alone |
| GChat.Reader.Who | internal/chatmemory/gchat.go:51-70 | an account's own user is asked once and kept; an account that cannot say who it is stays unread |
| GChat.Reader.Render | internal/chatmemory/gchat.go:148-171 | each row becomes the message the syncer sees, and the two caches are what the rows leave of them |
| GChatFacts.RowsAreMessages | internal/chatmemory/gchat.go:148-171 | each row is one message, under its own name and time, with its own words, of its own sender |
| GChatFacts.WroteSpelled | internal/sources/gchat/gchat.go:301-309 | a message with a user is the account's own by the user alone; one without, by its name alone, however cased or spaced |
| GChatFacts.ShownSpelled | internal/chatmemory/gchat.go:153-160 | a sender is shown by their name, and an app says that it is one |
| GChat.NamesEndAs | internal/chatmemory/gchat.go:148-171 | the name cache ends with the last name each sender showed, or with what it held for one that showed none |
| GChat.ViaEndsAs | internal/chatmemory/gchat.go:148-171 | the account cache gains exactly the senders seen, each under the account that saw it first |
| GChat.Reader.Messages | internal/chatmemory/gchat.go:138-177 | one read asks from a second before the cursor and settles its page; the caches change with an answer and not without one |
| GChat.AnswerFaithful | internal/chatmemory/gchat.go:131-177 | over the oldest `limit` after the bound, what is left of every answer is a prefix of the unread messages, and it is empty only at the end of the chat |
| GChat.StallIsNotEnd | internal/chatmemory/gchat.go:172-177 | with messages still unread the answer is never empty, and holds only passed ones exactly when a full page of the service does |
| GChat.TiesDecide | internal/chatmemory/gchat.go:138-177 | over a service that answers oldest first by time alone, an answer is faithful if and only if its page leaves out no unread message that comes, by its id, before an unread one it gives of the same instant |
| GChat.TiedCutSkips | internal/chatmemory/gchat.go:138-177 | and there is such a page: cut inside one instant by another order, a message is passed over unread |
| ChatClient.ReadGog | internal/sources/googleacct/chat.go:239-253 | the newest listed, turned round, without what the bound has behind it |
| ChatClient.SenderSpelled | internal/sources/googleacct/chat.go:208-216 | a listed sender is a user when written as one, and else a name to show |
| ChatClient.GogExactly | internal/sources/googleacct/chat.go:239-253 | asked that way, the reader is faithful, whatever listing the service gives, if and only if one message at most is unread, or no more than `limit` are as new as the first unread one |
| ChatClient.ReadGws | internal/sources/googleacct/chat.go:217-237 | the oldest after the bound, without the deleted |
| ChatClient.GwsExactly | internal/sources/googleacct/chat.go:217-237 | asked this way, it is faithful if and only if nothing is unread, or the page is not one of only passed and deleted messages with a deleted one among them |
| Syncer.TakeLongest | internal/chatmemory/chatmemory.go:438-454 | a batch is the longest start of the unread whose lines fit the limit, and one message when even the first does not |
| Syncer.BatchConsumes | internal/chatmemory/chatmemory.go:493-502 | a batch that leaves its chat unfinished has consumed at least one message, charged or not |
| Syncer.PassProgress | internal/chatmemory/chatmemory.go:384-415 | `history` always counts the unfinished history chats in the queue; a pass adds no work, and can leave it undiminished only if all it held was live chats waiting for history that is queued |
| Syncer.QueuedExactly | internal/chatmemory/chatmemory.go:340-362 | a chat is queued iff it is listed, not denied, and active later than the time of the cursor it is read from; it is live iff it was read to its end before |
| Syncer.SameInstantWaits | internal/chatmemory/chatmemory.go:359-361 | a message of the last instant cut off by a batch is delayed, not lost: its chat is queued again, from a cursor that has not passed it, iff it is active later |
| Syncer.SoonerIsOrder | internal/chatmemory/chatmemory.go:363-372 | the serving order is a strict weak order, as a stable sort needs |
| SyncerFacts.ServedInOrder | internal/chatmemory/chatmemory.go:363-372 | chats read to their end are served before those with history; of the former the most recently active first, of the latter the one served longest ago, and of those served together the most recently active |
| SyncerFacts.FirstReadsFrom | internal/chatmemory/chatmemory.go:296-312 | of a chat with no cursor, what is not read is exactly what comes before the configured start, or before a lookback from the first look at its account; it cannot be placed iff that look fails |
| SyncerFacts.UnreadableFails | internal/chatmemory/chatmemory.go:333-356 | a tick that cannot list the chats, or read the cursor of one it may read, fails and reads nothing |
| SyncerFacts.KeysTell | internal/chatmemory/chatmemory.go:282-290 | two chats of one service share a cursor key iff they are one chat of one account |
| SyncerFacts.DeniedSpelled | internal/chatmemory/chatmemory.go:292-294 | a chat is denied by its id or its name, however cased, and never for having no name |
| SyncerFacts.BatchSpelled | internal/chatmemory/chatmemory.go:423-503 | how a batch ends, by what the world answered: its cursor is written iff the source answered, the cursor moves, its text, if any, was extracted, and the save wrote; it is an error iff one of these failed; it is charged iff there was text; it stalls, or ends its chat, iff the listing says there was later activity, or none |
| SyncerFacts.TickSpelled | internal/chatmemory/chatmemory.go:333-421 | over a tick: the first batch in error is the last, and the tick then fails; the chats live after it are those live before and those a batch read, and saved, to their end; the stalls reported are the ones there were |
| SyncerFacts.MoreSpelled | internal/chatmemory/chatmemory.go:384-421 | a tick that did not fail says there is more only when its budget is spent; otherwise every chat queued was read to its end in it, or stalled |
| SyncerFacts.ExtractedBeforeSaved | internal/chatmemory/chatmemory.go:481-497 | no cursor is saved over text the model has not been through: a failed extraction ends the tick and leaves every cursor on disk as it was |
| SyncerFacts.LastWriteStands | internal/chatmemory/chatmemory.go:491-497 | of a chat the cursor on disk is that of the last batch that wrote one |
| SyncerLoop.Cursors.Save | internal/chatmemory/chatmemory.go:132-136 | a save that reports failure may or may not have been written |
| SyncerLoop.TakeBatch | internal/chatmemory/chatmemory.go:438-454 | the loop over unread messages takes that longest start and its readable lines |
| SyncerLoop.ReadAnswer | internal/chatmemory/chatmemory.go:423-470 | one answer of a source gives the next cursor and the lines: on with the unread, to the last activity over an empty answer, or nowhere |
| SyncerLoop.SyncLoop.Settle | internal/chatmemory/chatmemory.go:455-502 | stall, end, extraction, save: in that order, each with its effect on cursor, counters and the caught-up mark |
| SyncerLoop.SyncLoop.Batch | internal/chatmemory/chatmemory.go:423-503 | one batch changes the stored cursor, the counters and the marks as the event it is says, and reports error, done and the next cursor |
| SyncerLoop.SyncLoop.Listed | internal/chatmemory/chatmemory.go:340-362 | the listing loop builds the queue, or fails on the first cursor or first look it cannot read |
| SyncerLoop.SyncLoop.Turn | internal/chatmemory/chatmemory.go:394-413 | one chat's turn: its batch, then its mark, its share and whether it stays queued |
| SyncerLoop.SyncLoop.RunPass | internal/chatmemory/chatmemory.go:384-415 | one pass over the queue, live chats passed over once their share is spent |
| SyncerLoop.SyncLoop.RunPasses | internal/chatmemory/chatmemory.go:384-415 | the passes end: each consumes a message or finishes a chat |
| SyncerLoop.SyncLoop.Tick | internal/chatmemory/chatmemory.go:333-421 | the whole imperative tick, on its fields and the stored cursors, is the tick the theorems are about |
| SyncerSafety.ReadingCovers | internal/chatmemory/chatmemory.go:423-470 | a reading that moves the cursor takes exactly the messages between the old cursor and the new |
| SyncerSafety.MoveKeeps | internal/chatmemory/chatmemory.go:423-503 | whatever a batch comes to, what the saved batches add up to stays exactly the messages between the start and the cursor, which never goes back |
| SyncerSafety.RunsAreExact | internal/chatmemory/chatmemory.go:92-131 | the same over any run of batches, errors, deaths between extraction and save, and histories that grow past the cursor; only a batch not known saved is offered again |
| SyncerSafety.StalledExactly | internal/chatmemory/chatmemory.go:455-480 | a chat is reported stalled iff its source answered, all of the answer had been passed, and the chat has later activity; its cursor then stays |
| SyncerSafety.TickTracks | internal/chatmemory/chatmemory.go:333-421 | the batches a tick makes of one chat, wherever the scheduler put them, are such a run of that chat |
| SyncerSafety.SessionKeeps | internal/chatmemory/chatmemory.go:333-503 | a process that dies after any batch, or inside one, keeps the account, and the cursor on disk is where it stands |
| SyncerSafety.TicksNeitherSkipNorRepeat | internal/chatmemory/chatmemory.go:333-503 | over any sequence of ticks, deaths and restarts, a chat's saved batches are the messages after its start up to its cursor, once each, in order |
| SyncerFacts.ReadWasExtracted | internal/chatmemory/chatmemory.go:418-503 | and every message they add up to was in a batch whose text was extracted before its cursor was saved |
| SyncerSources.WacliNeitherSkipsNorRepeats | internal/chatmemory/wacli.go:90-117 | the same of a chat never read before, over servers that give the newest `limit` of each query, of histories with no more than `limit` in 37 seconds and nothing later than now |
| SyncerSources.ChatNeitherSkipsNorRepeats | internal/chatmemory/gchat.go:138-177 | and over services that give the oldest `limit` after a bound, a cut in chat order |
| SyncerBudget.TickShares | internal/chatmemory/chatmemory.go:374-403 | the batches of a tick never exceed its budget; stopped by it with history waiting, live chats had at most their cap and history at least a quarter |
| SyncerBudget.PassesCount | internal/chatmemory/chatmemory.go:482-489 | the budget counts exactly the batches handed to the model |
| SyncerBudget.PassReaches | internal/chatmemory/chatmemory.go:384-413 | a history chat a pass does not reach stands behind as many served history chats as the budget still owed to history |
| SyncerBudget.TickPassesOthers | internal/chatmemory/chatmemory.go:363-415 | a tick that passes a history chat over serves, of others ahead of it, a quarter of the budget, which are then behind it |
| SyncerBudget.HistoryIsServed | internal/chatmemory/chatmemory.go:363-415 | with a budget of four or more: however active the live chats, a history chat is passed over for at most (other chats) / (budget / 4) ticks in a row |
| SyncerStarve.LiveTakeAll | internal/chatmemory/chatmemory.go:384-403 | with a smaller one, as many live chats as it allows, first in the queue and each handed to the model, take all of it |
| SyncerStarve.HistoryStarves | internal/chatmemory/chatmemory.go:363-415 | so for budgets of one to three, which the configuration accepts, and for every n there is a run of n ticks that all pass a history chat over |
| SyncerStarve.HistoryStarvesFromStart | internal/chatmemory/chatmemory.go:363-415 | and such a run starts from any process that has just caught up with its live chats |
| Apply.Memory.ApplyOne | internal/chatmemory/apply.go:24-77 | each kind of operation does its write and its forget in the code's order, and is counted as the code counts it |
| Apply.Memory.Apply | internal/chatmemory/apply.go:16-78 | the loop leaves the counters, the trace of effects and the facts as the operations in turn make them |
| Apply.EveryOpIsCounted | internal/chatmemory/apply.go:16-78 | the four counters grow together by exactly the number of operations, whatever fails |
| Apply.WritesAreCounted | internal/chatmemory/apply.go:25-60 | added and updated together count exactly the writes that succeeded |
| Apply.OnlyAllowed | internal/chatmemory/apply.go:12-78 | every handle forgotten was shown and named by its operation; an update forgets only right after its own correction was written; nothing blank or secret is written |
| Apply.LostWereNamed | internal/chatmemory/apply.go:41-71 | a fact that is gone was shown, and was named by a forget or by an update whose replacement had been written |
| ApplyFacts.TraceSpelled | internal/chatmemory/apply.go:12-78 | over all operations, what is written is exactly what each addition, or correction of a memory shown, says, where it has a fact and a subject, is no secret and can be written; what is forgotten is exactly what is named |
| ApplyFacts.CategorySpelled | internal/chatmemory/apply.go:102-118 | the class a memory is filed under is that of the word given for it, however cased or spaced; any other word is context |
| ApplyFacts.ImportanceSpelled | internal/chatmemory/apply.go:120-133 | critical weighs most, low least, any other word between |
| ApplyFacts.CountsSpelled | internal/chatmemory/apply.go:12-78 | the additions, corrections, removals and refusals counted are those there were |
| ApplyFacts.WrittenStays | internal/chatmemory/apply.go:24-60 | what was written last under a handle and not forgotten since is there |
| ApplyFacts.ForgottenGoes | internal/chatmemory/apply.go:51-71 | what was forgotten and not written again is not |
| Bus.Journal.Append | internal/store/event_log_store.go:42-78 | an append of an id already there changes nothing and gives the number it is there under; any other is added at the end under its own |
| Bus.Journal.EventsAfter | internal/store/event_log_store.go:80-120 | a read returns the first matching events past the offset, a batch of them at most |
| Bus.Journal.SetOffset | internal/store/event_log_store.go:242-258 | a recorded offset never goes back |
| Bus.Log.Wake | internal/bus/bus.go:290-295 | every waiter taken so far finds its channel closed, a new channel stands, and the protocol makes its wake step: a generation is a channel |
| Bus.Log.Waiter | internal/bus/bus.go:297-301 | a waiter is the open channel of the current generation, which the next wake will close |
| Bus.Log.Publish | internal/bus/bus.go:81-103 | a publish is the append and then the wake of the protocol: an event is on disk before anyone is woken, nobody is when it could not be put there, and one there already wakes all the same |
| Bus.ClosedIsFree | internal/bus/bus.go:165-199 | a blocked subscriber may go on without the poll exactly when its channel is closed |
| Bus.WaiterIsClosed | internal/bus/bus.go:165-199 | whatever the interleaving, the channel of a subscriber blocked on an event whose publisher has woken is closed |
| Bus.Subscriber.StartingPoint | internal/bus/bus.go:124-155 | a subscriber begins at its recorded offset, or at the head if it never had one; unreadable, it does not begin |
| Bus.Subscriber.Deliver | internal/bus/bus.go:203-243 | up to three tries, then a dead letter; false only when cancelled, leaving the event unacknowledged |
| Bus.FirstSuccessIs | internal/bus/bus.go:203-243 | the try that settles an event is the first that works, of three |
| Bus.Subscriber.Take | internal/bus/bus.go:177-191 | an event is recorded only once settled, and the offset then stands on it |
| Bus.Subscriber.TakeBatch | internal/bus/bus.go:177-192 | a batch is taken in order; the steps it made are a run of the protocol |
| Bus.Subscriber.Round | internal/bus/bus.go:165-199 | one turn of the loop takes its waiter before it reads and blocks only on an empty read; its steps are a run of the protocol, and its waiter is closed iff the protocol lets it go |
| Bus.Subscriber.Await | internal/bus/bus.go:193-199 | the wait ends at a poll or a closed channel, exactly when the protocol lets it |
| EventLog.StepHolds | internal/bus/bus.go:81-243 | every step of publishers, subscriber, crash and restart keeps the invariant of the protocol |
| EventLog.DeliveredAtLeastOnce | internal/bus/bus.go:106-243 | over every run, each matching event between registration and recorded offset was handled, or tried three times and dead-lettered; first deliveries are in log order; the recorded offset is never ahead; and the registration stands from the first start that was recorded |
| EventLog.RedeliveryConfined | internal/bus/bus.go:139-155 | what is tried is always past the recorded offset and past the registration |
| EventFacts.BatchSpelled | internal/store/event_log_store.go:80-120 | a read gives records of the kinds asked for, or of any when none is named, past the offset, in log order, 128 at most; one it leaves out comes after a full batch |
| EventFacts.AskedAreDelivered | internal/bus/bus.go:106-243 | over every run nothing is tried but events of the kinds asked for; and each of these between registration and recorded offset was handled, or tried three times in vain |
| EventFacts.FailsCount | internal/bus/bus.go:203-243 | the tries in vain counted for an event are those there were |
| EventFacts.AckedIsDone | internal/bus/bus.go:177-191 | an event whose acknowledgement was written is never tried again, nor any before it, whatever deaths and restarts come after |
| EventFacts.StopsKeepTheRecord | internal/bus/bus.go:165-199 | a subscriber cancelled or dead is down, and what was logged, recorded and handled stays |
| EventLog.NoLostWakeUp | internal/bus/bus.go:165-199 | a subscriber blocked on an event whose publisher has woken holds a closed channel, in every interleaving, so nothing waits for the poll |
| EventLog.StartMissesExactly | internal/bus/bus.go:124-155 | over every run, a start passes over an event of its registration that nobody has handled if and only if no offset was ever recorded, by a start or by an acknowledgement |
| EventLog.MissedForGood | internal/bus/bus.go:106-243 | and what a registration has passed over is never tried again, whatever comes after |
| EventLog.UnrecordedStartMisses | internal/bus/bus.go:144-150 | a run in which it happens: an event published after a registration that could not be recorded is missed by the restart |
| Clock.EventIdNames | internal/clock/clock.go:102-119 | two timers' events share an id iff timer and deadline second are the same, whatever the timer ids contain |
| Clock.FiredOnce | internal/clock/clock.go:81-100 | over any run with deaths anywhere, one event at most for a timer and deadline second, and every deadline marked fired has its event |
| Clock.FailedPublishRetries | internal/clock/clock.go:88-94 | a failed publish leaves the timer armed, and the next sweep that is not full reads it again |
| Clock.FiredIsLogged | internal/clock/clock.go:81-100 | if nobody re-arms a timer between a sweep's read and its mark, a timer that counts as fired has its event in the log |
| Clock.MarkLosesExactly | internal/clock/clock.go:95-98 | a mark breaks that exactly when the timer was meanwhile re-armed to a deadline not in the log |
| Clock.RearmedTimerIsLost | internal/clock/clock.go:81-100 | a run in which it is: the new deadline is marked fired and never fires |
| Clock.TimerStore.Arm | internal/clock/clock.go:38-49 | arming moves the deadline and re-arms; a timer with a blank id, with no deadline, or that could not be written changes nothing |
| Clock.TimerStore.FireOne | internal/clock/clock.go:86-98 | a due timer's turn: published under its derived id, which a second publish does not repeat, and marked only then and only if it stands armed |
| Clock.TimerStore.Sweep | internal/clock/clock.go:81-100 | the loop publishes then marks each due timer, going on over failures |
| Clock.SweepKeeps | internal/clock/clock.go:81-100 | a sweep marks exactly the due timers whose publish and mark both worked, and leaves every other timer as it was |
| ClockFacts.SweepLogs | internal/clock/clock.go:81-100 | a sweep logs the event of each due timer whose publish works, and no other |
| ClockFacts.SweepIsItsSteps | internal/clock/clock.go:81-100 | the steps of a sweep, publish and mark by turns, come to the whole of it, to the last timer read |
| ClockFacts.DueFires | internal/clock/clock.go:81-100 | an armed timer whose time has come, read with fewer than 64, fires: its event is logged and it is marked |
| ClockFacts.OthersStay | internal/clock/clock.go:81-100 | a timer not due, or fired before, is left alone |
| ClockFacts.CancelledStaysGone | internal/store/timer_store.go:161-167 | a timer that is gone stays out of every later sweep until it is armed again |
| ClockFacts.CancelTakesOut | internal/store/timer_store.go:161-167 | cancelling takes out one timer and leaves the others |
| ClockFacts.CrashEndsSweep | internal/clock/clock.go:60-100 | a death ends the sweep under way and loses nothing written |
| Decimal.ColonSplits | internal/clock/clock.go:113 | a text and a number joined by a colon can be told apart again |
| RequestRing.EvictShortest | internal/browser/network.go:287-297 | eviction drops the shortest run of the oldest that restores both budgets, and takes exactly their bytes off the count |
| RequestRing.BeginKeeps | internal/browser/network.go:199-216 | a new request keeps the ring sound and within its budgets, and adds nothing uncounted |
| RequestRing.BeginAdds | internal/browser/network.go:199-216 | the new request is the newest held, under its own id and key, its headers overridden by the raw ones that came before it, which are used up |
| RingFacts.BeginHolds | internal/browser/network.go:199-216 | the new record holds what was captured, under its number and tab, its own headers under the raw ones that came before |
| RingFacts.ExtraMerges | internal/browser/network.go:225-250 | raw headers that come after their request are put over the headers of its record, and nothing else changes, of it or any other; those that come first are kept for it |
| RingFacts.EitherOrder | internal/browser/network.go:199-250 | in whichever order the two events of a request come, the ring is the same, wherever the request is still found |
| RingFacts.WireKeysTell | internal/browser/network.go:197 | two requests share a wire key iff they are one request of one tab |
| RequestRing.BodyKeeps | internal/browser/network.go:262-277 | a body update credits exactly its bytes, and strays exactly those of a record evicted, or of one credited before |
| RequestRing.BodyTellsItsRecord | internal/browser/network.go:262-277 | a body update changes its own record alone: the body and its bytes or the reason there is none, what was reported and when; its key is retired |
| RequestRing.ResponseTellsItsRecord | internal/browser/network.go:252-285 | a response or a failure changes its own record alone, each in its own fields |
| RequestRing.ExtraKeeps | internal/browser/network.go:230-239 | extra headers change no number, place or byte |
| RequestRing.ResponseKeeps | internal/browser/network.go:252-258 | nor does a response |
| RequestRing.FailureKeeps | internal/browser/network.go:279-285 | nor does a failure |
| RequestRing.RingKeeps | internal/browser/network.go:168-322 | over every sequence of operations: ids ascend, keys lead to held records, both budgets hold, and the total is the held bytes plus exactly the stray ones |
| RequestRing.StrayNeverFalls | internal/browser/network.go:168-322 | no operation takes a stray byte off again, and the budgets hold after every one |
| RequestRing.StrayBytesDecide | internal/browser/network.go:287-297 | the byte count keeps its budget if and only if the stray bytes do; once they alone exceed it the ring holds no request, whatever operations come after |
| RequestRing.BudgetHoldsExactly | internal/browser/network.go:168-322 | over any sequence of operations, the byte count keeps its budget if and only if the bytes credited to records evicted, or told of a body before, do |
| RequestRing.ToldOnceExactly | internal/browser/network.go:262-277 | no byte is stray if and only if every body update is made once, on a request that is held (one that keeps no text for a request that is gone does no harm) |
| RequestRing.ToldOnceKeepsBudget | internal/browser/network.go:168-322 | so with every body update made once, on a held request, the byte count is the bytes held and keeps the budget |
| RequestRing.LateBodyEmptiesRing | internal/browser/network.go:262-297 | a run that does not, for every capacity and budget: two requests, each told of its body once, one after its eviction; the count stays over the budget and the ring holds no request ever again |
| RequestRing.FoundExactly | internal/browser/network.go:199-297 | over any sequence of operations, a held request is found under its wire key iff, since it was opened, no other was opened under that key, none of that key was retired, and no other record of that key was evicted, its own opening included |
| RequestRing.UniqueKeysAreFound | internal/browser/network.go:199-297 | so with each wire key used once, every held request that has not ended is found |
| RequestRing.RepeatedKeyForgotten | internal/browser/network.go:213-215 | a run where it is not: a key used twice is forgotten when its first record is evicted, though the second is held |
| RequestRing.ListIsRight | internal/browser/network.go:299-312 | a list holds held requests that match, all of them unless limited, newest first |
| RingFacts.ListSpelled | internal/browser/network.go:138-155 | what a filter asks: tab, part of the address, verb and type however cased, status; and the list is of the places asked for from the newest back, all or as many as it is limited to |
| RequestStore.Store.Begin | internal/browser/network.go:199-216 | the begin on shared records and two indexes is the begin of the ring, and returns a record never seen before |
| RequestStore.Store.EvictLocked | internal/browser/network.go:287-297 | the eviction loop on order and indexes is the eviction of the ring |
| RequestStore.Store.Find | internal/browser/network.go:218-223 | a wire key finds its held record iff the ring has one |
| RequestStore.Store.ApplyExtraRequestHeaders | internal/browser/network.go:230-239 | merged into the live record, or kept for the request that will come |
| RequestStore.Store.UpdateResponse | internal/browser/network.go:252-258 | a response written into a shared record, held or not, changes that record alone |
| RequestStore.Store.UpdateBody | internal/browser/network.go:262-277 | a body written into a shared record, held or evicted, is what the ring says, and retires the key |
| RequestStore.Store.MarkFailed | internal/browser/network.go:279-285 | a failure marks the record and retires its key |
| RequestStore.Store.List | internal/browser/network.go:299-312 | the backwards loop gives the ring's list |
| RequestStore.Store.Get | internal/browser/network.go:314-322 | an id is found iff a held record has it |
| Cdp.RepliesReachTheirCalls | internal/browser/cdp.go:75-160 | over every interleaving: a call gets at most one note, and only one read under its own id; the reader never blocks on a send, and the closing message finds room |
| Cdp.PendingAreCompleted | internal/browser/cdp.go:128-173 | once the reader has left, every call pending at the loss was told; a waiting call has its note iff it registered before the loss |
| Cdp.ReturnedIsForgotten | internal/browser/cdp.go:75-100 | a call that gave up is in the map no more; one that waits, with nothing sent and the reader alive, is |
| Cdp.GivesUp | internal/browser/cdp.go:75-110 | a call whose request was not written, or whose context ended, takes itself out of the map and returns |
| Cdp.LateCallIsNotAnswered | internal/browser/cdp.go:75-83 | a call registered after the loss is never answered, whatever happens: only its own context ends it |
| Cdp.LateCallHappens | internal/browser/cdp.go:75-173 | and there is such a run |
| CdpConn.Conn.Register | internal/browser/cdp.go:75-81 | each call has an id and a channel of its own |
| CdpConn.Conn.Forget | internal/browser/cdp.go:82-86 | a call that gives up takes out itself alone |
| CdpConn.Conn.Dispatch | internal/browser/cdp.go:134-154 | a message with a pending id reaches that call and no other, and any other message reaches none |
| CdpConn.Conn.FailPending | internal/browser/cdp.go:162-173 | in whatever order the map is walked, every pending call is told, none is too full to be, and the map is left empty |
| Mailbox.KeyTellsLanes | internal/agent/mailbox.go:129-156 | two events share a key iff they are of one chat, job, route or timer, or name none and are of one kind |
| MailFacts.KeysSpelled | internal/agent/mailbox.go:129-156 | by what they carry: two events share a key iff both are of one `channel_id`, `job_id`, `route` or `timer_id`, each with its kinds, or neither names any and they are of one kind |
| MailFacts.ChatKeys | internal/agent/mailbox.go:134-141 | a chat's messages share a key whatever else they carry, and no other chat's has it |
| MailFacts.ChatInOrder | internal/agent/mailbox.go:54-121 | over any interleaving, of the messages of one `channel_id`: those on one channel are taken in the order sent, an earlier channel is retired for good before a later one is made, and no two are in hand at once |
| MailFacts.RoomSpelled | internal/agent/mailbox.go:54-78 | a send is taken iff fewer than 32 events wait, and a conversation starts unless 64 are active |
| MailFacts.ShutdownEnds | internal/agent/mailbox.go:83-121 | a shutdown ends each worker that waits: its key is free, and it takes nothing more |
| Mailbox.StepKeeps | internal/agent/mailbox.go:54-121 | every lock section and channel operation keeps the table right |
| Mailbox.OneWorkerEach | internal/agent/mailbox.go:54-121 | in every interleaving a conversation is in the table iff exactly one live worker serves it, at most 64 are, and no two handlers of one conversation overlap |
| Mailbox.EveryEventIsSomewhere | internal/agent/mailbox.go:54-121 | an accepted event was taken, once and in the order sent; or waits for a live worker; or was dropped by the shutdown; or was sent after its worker had retired |
| Mailbox.StrandsExactly | internal/agent/mailbox.go:66-76 | exactly the sends on a retired channel strand an event; no other step does, and none rescues one |
| Mailbox.StrandedForGood | internal/agent/mailbox.go:100-121 | a stranded event is never handled |
| Mailbox.SendAfterUnlockStrands | internal/agent/mailbox.go:66-76 | with the send after the unlock it happens, though the idle branch's comment (lines 101-103) says it cannot |
| Mailbox.LockedStrandsNone | internal/agent/mailbox.go:66-76 | with the send inside the lock it never does |
| MailboxTable.Mailboxes.Claim | internal/agent/mailbox.go:57-70 | the locked part of a delivery finds or makes the one channel, or refuses when 64 are active |
| MailboxTable.Mailboxes.Send | internal/agent/mailbox.go:72-77 | the send takes the event iff the channel has room, at its end |
| MailboxTable.Mailboxes.Deliver | internal/agent/mailbox.go:54-78 | a delivery nothing interrupts is the one made under a single lock |
| MailboxTable.Mailboxes.Receive | internal/agent/mailbox.go:90-98 | a worker takes the oldest event |
| MailboxTable.Mailboxes.IdleFired | internal/agent/mailbox.go:100-113 | the idle timer retires a worker iff its channel is empty at that moment |
| MailboxTable.Mailboxes.Retire | internal/agent/mailbox.go:117-121 | a worker that sees the end takes its own key out |
| Dedup.NormalIsIdempotent | internal/comms/dedup.go:112-125 | the normal form of a normal form is itself, over any alphabet whose lower case is settled |
| Dedup.FieldsOfJoined | internal/comms/dedup.go:124 | joining words and splitting them again gives the words back |
| Dedup.OverlapIsRatio | internal/comms/dedup.go:137-154 | the rephrase test is symmetric, its ratio lies between nothing and all, containment passes it and disjointness fails it |
| DedupFacts.WordsPart | internal/comms/dedup.go:112-125 | a character that is neither letter nor digit parts the words before it from those after, and is in none |
| DedupFacts.OneWord | internal/comms/dedup.go:112-125 | letters and digits in a row are one word, in lower case |
| DedupFacts.NoWords | internal/comms/dedup.go:112-125 | nothing has no word |
| DedupFacts.BytesOfPlain | internal/comms/dedup.go:127-135 | a word of ASCII counts a byte for each character, and no word fewer |
| DedupFacts.NormalTellsWords | internal/comms/dedup.go:112-125 | two messages have one normal form iff they have the same words in the same order |
| DedupFacts.RepeatsSpelled | internal/comms/dedup.go:74-154 | one message is said again by another iff they have the same words, some, within six hours; or, within ten minutes, the new one has six words or more of four bytes that are not common ones, and shares with the old three fifths at least of whichever has fewer |
| Dedup.IsRepeat | internal/comms/dedup.go:74-103 | the search says repeat iff some message of the history, within six hours, has the same normal form, or within ten minutes says it in other words |
| Dedup.SendGuard.Reserve | internal/comms/dedup.go:53-66 | a claim is granted iff nothing has held the message for a minute or less, and forgets older holds |
| Dedup.SendGuard.Release | internal/comms/dedup.go:68-72 | a release frees the message whoever holds it |
| Dedup.BriefHoldsExclude | internal/comms/dedup.go:39-72 | while no hold is over a minute old the guard tracks exactly who is inside, and one sender at a time is |
| Dedup.GuardExcludes | internal/comms/dedup.go:39-72 | so over any run of such holds |
| Dedup.LetInBesideExactly | internal/comms/dedup.go:53-66 | a second sender is let in beside a first iff the first has held the message over a minute |
| Dedup.LongHoldFreesAnother | internal/comms/dedup.go:68-72 | then the first's release frees the second's claim, and a third goes in seconds after it |
| Sends.StepKeeps | internal/comms/manager.go:632-690 | every step of interleaved sends, and of those who write outbound rows without a check, keeps: each message recorded by a send passed a check over the newest fifteen rows of its time |
| Sends.SaidOnce | internal/comms/manager.go:632-645 | for two recorded messages of the same words to one target, the later no status notice, its check came over six hours after the first was recorded, or could not read, or came before it was recorded, or found fifteen rows as new |
| Sends.SaidOnceInTurn | internal/comms/manager.go:632-690 | one send at a time, and nothing outbound recorded beside it, the third case is gone: the same words go twice to one target only six hours apart |
| SendFacts.RecordedSaysNothingAgain | internal/comms/manager.go:632-690 | over any run, a recorded message that passed its check and is no status notice says no outbound row of the fifteen newest its check read again, in its words within six hours or in others within ten minutes |
| Sends.GoesExactly | internal/comms/manager.go:632-690 | a whole send that nothing interrupts and nothing fails records its message if and only if its check lets it through and nobody has held the message for a minute or less |
| Sends.SecondGoesExactly | internal/comms/manager.go:632-690 | of words said to a target within six hours, over any interleaving up to then, a second copy is recorded if and only if nobody holds it and it is a status notice, its page is unreadable, or the page neither holds the first copy nor an outbound row the words repeat; a page without the first copy is crowded |
| Sends.UnreadableGoesFromStart | internal/comms/manager.go:632-690 | a run from the start in which an unreadable history lets the same words out twice at once |
| Sends.CrowdedGoesFromStart | internal/comms/manager.go:632-690 | and one in which fifteen messages in between do |
| Sends.RowBesideIsNotSeen | internal/comms/echo.go:79-82 | an outbound row written unchecked between a check and its send is not seen: the same words stand twice |
| Sends.BesideGoesFromStart | internal/comms/echo.go:79-82 | a whole run of that, from the start |
| Sends.TwoCheckedBothGo | internal/comms/manager.go:638-655 | the history is read before the message is reserved: two sends that both passed the check both go out |
| Sends.TwoGoFromStart | internal/comms/manager.go:638-655 | a whole run of that, from the start |
| SendPath.Manager.RecentlySaid | internal/comms/manager.go:747-772 | an unreadable history never blocks; else it is the outbound rows of the page that decide |
| SendPath.Manager.Send | internal/comms/manager.go:613-702 | the refusals in their order, what each leaves untouched, and what store, guard and bus hold after |
| SendFacts.ResultSpelled | internal/comms/manager.go:613-702 | each refusal comes before those after it, and a message goes out iff it has text, its channel is there and not muted, the page says nothing of it or it is a status notice, nobody has held it for a minute or less, and the channel takes it |
| SendFacts.SendLeaves | internal/comms/manager.go:632-702 | a row iff it went out and could be stored; no send under way and no claim of its own; and nothing at all of one refused before its claim |
| SendFacts.SendTells | internal/comms/manager.go:657-702 | the message is announced iff it went out, and, when asked for, an alarm is raised iff the channel was muted or failed over an address that was right |
| SendFacts.ClaimsTell | internal/comms/manager.go:648 | two sends claim the same iff target and words are the same |
| SendPath.Manager.Conclude | internal/comms/manager.go:656-702 | the guard is released on either way out, and a delivered message is published even if it could not be stored |
| ChatLog.JoinIsAssociative | internal/chatlog/chatlog.go:221-232 | joining prose is associative, with the empty text on either side changing nothing |
| ChatFacts.JoinSpelled | internal/chatlog/chatlog.go:221-232 | joined prose is a paragraph apart: only the blanks that ended the first and the line ends that began the second are gone |
| ChatLog.ReadRecord | internal/chatlog/chatlog.go:161-185 | one record gives its own message and adds its results to those before |
| ChatLog.Read | internal/chatlog/chatlog.go:141-203 | the reader is the fold the theorems are about |
| ChatLog.ApplyToolResults | internal/chatlog/chatlog.go:205-219 | every call is given the result under its id, and only that |
| ChatLog.SplitsDoNotShow | internal/chatlog/chatlog.go:190-199 | the transcript does not depend on how an assistant turn is split over records with times of their own, wherever it stands: it is that of one record, of the time of the first part that says anything |
| ChatLog.TimesShowAsTimes | internal/chatlog/chatlog.go:141-203 | files that differ in their records' times alone give transcripts that differ in their times alone |
| ChatLog.TurnIsOneMessage | internal/chatlog/chatlog.go:190-199 | a stretch of assistant records with silent ones between is one message: all its prose joined, all its calls in order |
| ChatLog.LastResultWins | internal/chatlog/chatlog.go:175-183 | of several results under one id the last in the file counts |
| ChatLog.TranscriptIsFaithful | internal/chatlog/chatlog.go:141-203 | no two assistant messages stand side by side, and the calls are those of the file in its order, each with that result |
| ChatFacts.TypedStandsAlone | internal/chatlog/chatlog.go:186-199 | each thing the user typed is a message of its own, in order, with its own words and time |
| ChatFacts.OthersDoNotShow | internal/chatlog/chatlog.go:155-160 | records that are neither the user's nor the assistant's leave no trace |
| ChatFacts.CallsSpelled | internal/chatlog/chatlog.go:166-219 | each call shows what it was called with, and the output of the last result under its id, failed iff that says so; with no result, completed with nothing |
| Broker.MatchesExactly | internal/broker/broker.go:196-212 | a star alone is everything, a final `.*` a beginning and a first `*.` an end of a dotted name, and a star anywhere else is only itself |
| BrokerDesk.Desk.SetTrust | internal/broker/broker.go:90-94 | a subject's trust is what it was last set to |
| BrokerFacts.MatchesCovers | internal/broker/broker.go:196-212 | a pattern covers `*`, itself, or one end of a value up to a dot, and nothing else |
| BrokerFacts.UngatedWasDeclared | internal/broker/broker.go:162-176 | over any run a subject goes ungated iff it was last declared so; one nobody declared is gated |
| BrokerFacts.CheckSpelled | internal/broker/broker.go:162-230 | a whole check of a gated subject is allowed iff its entry of under five seconds, or else the store, holds a grant of it or of all, not run out, that covers the value, and the use could be metered; it is refused iff there is none; and what cannot be read allows nothing |
| BrokerFacts.MeterCounts | internal/store/capability_store.go:129-148 | over any interleaving the meter counts each use and each refusal that could be written, once, under its subject, capability and day |
| Broker.CacheIsRead | internal/broker/broker.go:214-230 | over any interleaving, what is cached of a subject is what a caller read of the store for it, no later than it was cached |
| Broker.AnswerIsRead | internal/broker/broker.go:214-230 | what a caller is answered was cached under five seconds before it asked, from such a read |
| Broker.AllowedWasGranted | internal/broker/broker.go:162-230 | over any interleaving, an allowed gated check rests on a matching live grant that was in the store when a caller read it, and that was cached under five seconds before the check asked |
| Broker.ListingDecides | internal/broker/broker.go:177-212 | a check by a listing of the store allows iff the store holds a live grant of the subject or of all subjects that matches |
| Broker.ChangeIsSeenExactly | internal/broker/broker.go:214-280 | a change of the store is seen by a later check of what it decides, over every interleaving in between, iff no read from before the change is then cached and live |
| Broker.OnlyReadsInFlight | internal/broker/broker.go:214-280 | once the broker has dropped the entry, such a read can be cached only by a caller that read before the change and writes after the drop |
| Broker.ChangeIsSeen | internal/broker/broker.go:254-280 | so a change made through the broker is seen by every check after it of its own subject, when no read of that subject is under way across it |
| Broker.RevokedInFlightStillAllowed | internal/broker/broker.go:214-230 | and when one is, a check a second after a revocation is allowed what the store no longer holds |
| Broker.ChangeForAllIsSeenExactly | internal/broker/broker.go:330-334 | a change for every subject, where it matters to another one, is seen by that one's next check iff its cache has run out |
| Broker.RevokedForAllStillAllowed | internal/broker/broker.go:264-270 | a permission revoked for every subject is still allowed to one just served |
| Broker.LimitIsFirst | internal/broker/broker.go:232-252 | the ceiling is that of the first spend grant that is `*` or reads positive, and nothing when there is none |
| BrokerFacts.SpendSpelled | internal/broker/broker.go:135-159 | a spend is let through iff it is uncapped, or it and what the meter shows of the day are no more than the ceiling |
| Broker.LimitIsFirstInText | internal/broker/broker.go:232-252 | in a listing as the store orders it, that is the grant whose text comes first of those that say anything |
| Broker.LowerBindsExactly | internal/broker/broker.go:232-252 | of two numeric ceilings the lower one binds iff the order of their texts is that of their numbers |
| Broker.ThousandBinds | internal/broker/broker.go:232-252 | so of 1000 and 50 the lower does not |
| Ceiling.CeilingIsKept | internal/broker/broker.go:138-159 | over any interleaving with at most `k` spends of a subject under way at once, a day's bookings never pass `k` times its ceiling, a midnight between meter and booking included; in turn, they never pass the ceiling |
| Ceiling.OverlapsReachIt | internal/broker/broker.go:138-159 | and they may come to `k` times it: `k` callers that each read an empty meter, and then book |
| Ceiling.OverlapsFromStart | internal/broker/broker.go:138-159 | a whole run of that, from the start: a ceiling granted, `k` callers served, each spend priced, each booked |
| BrokerDesk.Desk.LookUp | internal/broker/broker.go:215-220 | the locked look at the cache finds an entry of under five seconds, or nothing |
| BrokerDesk.Desk.Fill | internal/broker/broker.go:226-228 | the locked write makes what the caller read the subject's entry, of that moment |
| BrokerDesk.Desk.GrantsFor | internal/broker/broker.go:214-230 | with nothing in between: from a cache of under five seconds, else from the store, and then cached |
| BrokerDesk.Desk.MeterCapability | internal/store/capability_store.go:129-148 | one use or refusal is added to the day's reading, or nothing when the write fails |
| BrokerDesk.Desk.Check | internal/broker/broker.go:162-194 | the decision loop and its effects on cache and meter |
| BrokerDesk.SpendLimit | internal/broker/broker.go:232-252 | the loop finds the first spend grant that says anything |
| BrokerDesk.Covered | internal/broker/broker.go:177-184 | the loop over the grants finds a matching one iff there is one |
| BrokerDesk.Desk.Spend | internal/broker/broker.go:135-159 | refused over the ceiling, else booked before the work |
| BrokerDesk.Desk.GrantOne | internal/broker/broker.go:254-261 | a grant replaces its like, and then what was cached of its subject is dropped |
| BrokerDesk.Desk.Revoke | internal/broker/broker.go:264-270 | a revocation takes out one grant and drops what was cached of its subject |
| BrokerDesk.Desk.RevokeAll | internal/broker/broker.go:273-279 | so does one of everything |
| Words.ContainsWord | cmd/karmax/migrate_cmd.go:565-585 | true iff a delimited occurrence exists, for every text and name; the empty name also has to start before the text's end, or at 0 |
| Words.DelimitedSpelled | cmd/karmax/migrate_cmd.go:565-585 | an occurrence is a word of its own iff no letter or digit of ASCII stands against either end |
| Basics.TrimSpelled | internal/chatmemory/apply.go:80-83 | trimming takes the spaces, tabs and line ends off both ends of a text, and nothing else |
| Words.LineSink.Write | internal/api/chat.go:39-52 | a write tells every line it completes and keeps the rest |
| Words.ChunksDoNotShow | internal/api/chat.go:34-52 | the lines told do not depend on how the bytes were chunked |

## Left out

- SyncerSafety.TicksNeitherSkipNorRepeat: within one tick a chat's history and answers are fixed; between ticks, and in `RunsAreExact` at any time, it may grow past the cursor.
- SyncerSafety.TicksNeitherSkipNorRepeat: a chat with no cursor yet is taken to start where it did before (`StartsAt`); when `FirstLook` is unset, the code's start moves with the process's own start time (`chatmemory.go:305`).
- SyncerBudget.HistoryIsServed: ticks that end in an error are not counted among those that pass a chat over.
- Wacli.MessagesRight: the server is a function of the bounds for the length of one read, and every row's time parses. The limit of the whole reading is also what each query asks for, as in the code.
- WacliExact.ReadRightExactly: the cursor is not later than the second of the reading's own clock.
- ChatClient.GogExactly: signing in, decoding and how a time is read off its text; a service lists each message once.
- Syncer: speakers' names, prompt text and the model's reply; a line is any text, its length counted in characters, and an extraction works or fails.
- Basics: case folding and trimming are those of ASCII letters, spaces, tabs and line ends.
- EventLog.DeliveredAtLeastOnce: one subscriber at a time, as its offset is its own; a handler's panic is a failed try; retry delays are not timed; pruning of the log is not modelled. A dead letter that could not itself be written counts as one, as in the code.
- Bus.Log.Publish: an event's missing id and time are filled in before the call.
- Clock.FiredOnce: a timer's payload; cancelling and pruning timers; several clocks over one store.
- RequestRing: the counter is unbounded (64 bits in the code); the events that lead to the store's calls, body fetching and its size cap, and the redaction of headers are left out.
- Cdp.RepliesReachTheirCalls: message encoding, writes to the socket and their lock; events, which touch no shared state; the id counter is unbounded.
- Mailbox.EveryEventIsSomewhere: the idle timer may fire whenever a worker waits, and its length is not timed; what a handler does.
- Dedup.OverlapIsRatio: the ratio is compared as whole numbers, five times the shared words against three times the smaller count, in place of floating point; how an age is worded.
- Dedup.NormalIsIdempotent: Unicode is an alphabet with letters, digits and a lower case that is its own lower case.
- Sends.SaidOnce: a message is as cleaned (`CleanContent` is not part of this model); the rephrasing window is in `Dedup.IsRepeat` and not carried to runs, since a status notice or a crowded history may stand between.
- SendPath.Manager.Send: the alert over another channel that may follow a failure (`AlertAlternative`) is a send of its own; choosing its channel is left out.
- ChatLog.Read: decoding of lines and times, tool titles, and the cutting of long inputs and outputs; conversation listing and deletion.
- Broker.AllowedWasGranted: a read of the store is one step, though its answer may be used at any time after; a check and its meter entry are one step.
- Ceiling.CeilingIsKept: how a number is read off a grant's text is a function given; reading the limit and the meter is one step, as a booking is.
- Apply.Memory.Apply: finding the memories to show; reading the model's operations; what makes a text secret is a predicate given.
- Words.ContainsWord: deriving the edges from the words found, and the rest of the migration.
- HTTP, websockets, processes, the SQL behind the stores, configuration, onboarding, prompts and the command line.
