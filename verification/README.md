# Conversations: an event-sourced write path and its read side

This project models the service's write path and read models and proves what they keep in every run.

Commands append events to a log and, in the same step, to an outbox. A single relay drains the outbox into a
projection in sequence order, and readers poll against the projection's checkpoint. Two stores implement the
same ports: one in memory, where every call is atomic, and one on Postgres, where transactions interleave. A
third reading of the same log, the aggregate behind membership commands, keeps its own member lists.

What the files hold, from the inside out:

- `Collections.dfy`, `Domain.dfy`: lists and the stable sort; events, views, and what a command must pass.
- `ReadModel.dfy`: what a conversation looks like after a log, said thread by thread with no store in mind, and
  which logs are well formed. Everything else is proved against it. `History.dfy` says how views change over time.
- `MemoryProjection.dfy`, `MemoryRefinement.dfy`, `MemoryLaws.dfy`, `MemoryEventStore.dfy`, `Outbox.dfy`,
  `Relay.dfy`: the in-memory adapters and the relay as classes and loops, and what they compute.
- `PostgresTables.dfy`, `PostgresStore.dfy`, `PostgresRefinement.dfy`: tables, statements, queries, transactions;
  the agreement of the two stores.
- `Aggregate.dfy`, `UseCases.dfy`: replay and membership decisions, against the projections; the write use cases.
- `ByParticipant.dfy`, `ParticipantQueries.dfy`, `ParticipantAnswers.dfy`: the list of one participant's
  conversations, in memory and through the SQL join.
- `PostgresProtocol.dfy`, `PostgresInvariant.dfy`, `PostgresSteps.dfy`, `PostgresRuns.dfy`: the Postgres write
  path as a state machine and what every run keeps. Commands decide on reads of any earlier state, draw a number
  for each row, and commit or roll back in any order; the relay lists, plans, applies and marks done, and may stop
  between any two of its calls.
- `PostgresTransactions.dfy`, `PostgresGuarantees.dfy`, `PostgresProgress.dfy`, `PostgresBatches.dfy`,
  `PostgresReplies.dfy`, `PostgresMembership.dfy`, `ParticipantRuns.dfy`: what that gives callers;
  `PostgresWitnesses.dfy` constructs the runs that reach what is not excluded.
- `MemoryProtocol.dfy`, `MemoryGuarantees.dfy`, `MemoryRuns.dfy`: the same for the in-memory adapters, one step
  per atomic call.
- `Requests.dfy`: what each command's rules are, which events it raises and what it makes of the view, written out
  field by field; `PostgresRequests.dfy` and `MemoryRequests.dfy` follow a request from the caller to the reader.

A log is a list of events; event i of it, from 0, has sequence i + 1. In the Postgres state machine the log has
every row that drew a number, rolled back or not, so that sequences are positions there as well. Time is an
integer with Go's zero time at 0. Ids drawn by a command are assumed never to have been drawn before.

## What does not hold

Four stronger statements suggest themselves, and some are made in the repository's documentation. Each is false
of the code; what is proved instead:

- *The relay always makes progress.* It stops for good at a number a rolled-back append drew
  (`PostgresGuarantees.GapStalls`) and at an applied entry that an interrupted marking loop left pending
  (`PostgresGuarantees.LeftPendingStalls`). Both are reached, from any state that can get there and from any
  acceptable conversation (`PostgresWitnesses.GapAfter`, `PostgresWitnesses.LeftPendingAfter` and their companions).
  `PostgresGuarantees.QuietDrain` says these are the only ways, and `PostgresGuarantees.DrainNoOp` gives the
  condition with transactions open. `PostgresProgress.LeftPendingIffInterrupted` says which runs leave an entry
  pending, and `PostgresProgress.Progress` that all others without a rolled-back number progress.
- *A reader never sees half a batch* (comments at `internal/adapters/postgres/projection.go:15-20` and
  `internal/adapters/memory/projection.go:39-42`). True in memory (`MemoryGuarantees.BatchesSeenWhole`), and true
  in Postgres of the batch whose sequence the reader waits for (`PostgresGuarantees.ReadYourWrites`). Of other
  batches in Postgres it is false in two ways.
  Transactions interleave their numbers, so that a batch's numbers increase but need not be consecutive as
  `docs/adr/0029-fine-grained-events.md:31` has it, and the checkpoint may lie inside one
  (`PostgresWitnesses.HalfAppliedBatch`); `PostgresBatches.SplitExactly` and `PostgresBatches.SplitInRun` say exactly
  when, and `PostgresBatches.ConsecutiveNeverSplit` that it never does with consecutive numbers.
  And the three reads of one Get may fall before and after an Apply, so that even a batch with consecutive numbers
  is shown without its opening message (`PostgresWitnesses.TornInsideBatch`). `PostgresBatches.SplitShows` says for
  any three reads exactly what of a batch is shown, `PostgresBatches.ConsecutiveShownWhole` that consecutive numbers
  are enough when the messages are read with no less applied than the thread rows, and
  `PostgresBatches.ReadIsApplied` what a reader misses.
- *A reply's author is a participant when the reply is appended.* The projection asked may lag, in Postgres each
  of its three reads on its own (`PostgresWitnesses.LateReply`, `PostgresWitnesses.LateReplyReached`). What was read
  had admitted the author (`PostgresReplies.MessagesAreAuthorised`), and `PostgresReplies.AuthorAtAppend` says
  exactly when the author still is a participant among the events stored below the reply's number.
- *Aggregate and projection hold the same members.* Two interleaved additions of one person are enough to part
  them (`Aggregate.InterleavedAddsDiverge`, reached by `MemoryRuns.InterleavedAddsReached`), because the aggregate
  removes one occurrence and the projections remove all. `Aggregate.AgreementCondition` says exactly when they
  agree, and `Aggregate.ProjectionWithinAggregate` which way they can differ. They agree in every run whose
  membership commands do not overlap (`MemoryRuns.ImmediateAgrees`, `PostgresMembership.SerialAgrees`). For the same
  reason a repeated removal may append again; `UseCases.RepeatedRemoval` says exactly when it does not.

## Model

| member | source | states |
|---|---|---|
| `Domain.NewRecipients` | internal/domain/conversation.go:38-52 | A recipient list is accepted exactly when nobody is in it twice, and is then kept as given; otherwise the duplicate is reported. It is what starting a thread uses. |
| `Domain.StartedMembersDistinct` | internal/domain/conversation.go:182-221 | A thread that passes validation starts with a participant list that repeats nobody, author included. |
| `MemoryProjection.Projection.Apply` | internal/adapters/memory/projection.go:43-77 | One Apply call over a batch: entry by entry, stopping with the error and what came before it in place, the checkpoint moving once, to the last entry, only when all succeeded. |
| `MemoryProjection.Projection.ApplyConversationCreated` | internal/adapters/memory/projection.go:79-84 | The conversation is (re)set to a view with no threads; nothing else changes. |
| `MemoryProjection.Projection.ApplyThreadStarted` | internal/adapters/memory/projection.go:94-118 | Records the start sequence, adds the thread and sorts the list by start sequence, stably; unknown conversations are refused without a change. |
| `MemoryProjection.Projection.ApplyMessagePosted` | internal/adapters/memory/projection.go:120-146 | Appends the message to the first thread with the id and raises its latest time only when the message is later; unknown targets are refused without a change. |
| `MemoryProjection.Projection.ChangeParticipant` | internal/adapters/memory/projection_participant.go:17-41 | An addition appends, a removal takes out every occurrence and keeps the order of the rest; unknown targets are refused without a change. |
| `MemoryProjection.Projection.GetByParticipant` | internal/adapters/memory/projection.go:167-211 | Whatever order the map is iterated in: each conversation with a thread the participant is in, once and no other, cut down to those threads, latest kept message time first. |
| `MemoryProjection.OwnIdsKept` | internal/adapters/memory/projection.go:79-84 | No Apply, failing or not, files a view under a key other than its own id, which GetByParticipant relies on. |
| `MemoryRefinement.EntryApplies` | internal/adapters/memory/projection.go:43-146 | Against a state that matches a log, the next well-formed event is applied without error and the state matches the longer log: views, start sequences and latest times. |
| `MemoryRefinement.NeverFails` | internal/adapters/memory/projection.go:94-146 | The unknown-conversation and unknown-thread errors cannot occur on a well-formed log, whatever sequence the entry carries. |
| `MemoryRefinement.RunFollows` | internal/adapters/memory/projection.go:43-77 | A whole run continuing the log is applied, matches the longer log and leaves the checkpoint at its length. |
| `MemoryRefinement.MatchingReads` | internal/adapters/memory/projection.go:148-222 | Get and Exists of a matching projection: not found exactly while the conversation has no thread, else the view the log defines. |
| `MemoryLaws.RefusedEntries` | internal/adapters/memory/projection.go:86-146 | On any state an entry is refused if and only if its conversation is unknown or, unless it starts a thread, its thread is. |
| `MemoryLaws.ConversationsIndependent` | internal/adapters/memory/projection.go:43-146 | Applying a batch and applying only its events about c leave the same about c, from any two states that agree on c. |
| `MemoryLaws.ViewFromOwnEvents` | internal/adapters/memory/event_store.go:47-80 | A conversation reads the same from the whole log as from ListByConversation's part of it. |
| `MemoryLaws.ThreadOrderConfluent` | internal/adapters/memory/projection.go:86-118 | The same thread starts, in any two orders and each split over any Apply calls, leave the same conversation, its threads strictly increasing in start sequence. |
| `MemoryLaws.CallsSplit` | internal/adapters/memory/projection.go:43-77 | One Apply call or two: the same error or none and the same state, but for the checkpoint the first of two calls has moved when the second fails. |
| `MemoryLaws.CallsAreOne` | internal/adapters/memory/projection.go:43-77 | However a batch is split over Apply calls, the outcome is that of one call, with the same exception. |
| `MemoryEventStore.EventStore.Append` | internal/adapters/memory/event_store.go:29-41 | The batch goes to the end of the log, every event of it becomes pending, and the last sequence is returned (0 for none). |
| `MemoryEventStore.EventStore.ListByConversation` | internal/adapters/memory/event_store.go:47-80 | Exactly the conversation's records, in log order. |
| `MemoryEventStore.EventStore.Pending` | internal/adapters/memory/event_store.go:90-106 | The ordered listing of the pending entries, whatever order the map is iterated in. |
| `MemoryEventStore.PendingFacts` | internal/adapters/memory/event_store.go:90-106 | That listing is exactly the pending entries, in increasing order. |
| `MemoryEventStore.EventStore.MarkDone` | internal/adapters/memory/event_store.go:108-114 | The entry is no longer pending; nothing else changes. |
| `MemoryEventStore.AboutFacts` | internal/adapters/memory/event_store.go:47-80 | It picks out exactly the conversation's records, numbers kept, and keeps increasing order. |
| `MemoryEventStore.ListingIsOwn` | internal/adapters/memory/event_store.go:47-80 | What listing a conversation returns is what the aggregate calls its own events. |
| `Outbox.ContiguousRun` | internal/ports/in/relay.go:32-41 | The loop collects the longest prefix numbered checkpoint + 1, checkpoint + 2, and so on. |
| `Outbox.RunOfListing` | internal/ports/in/relay.go:34-45 | The run is exactly the pending events from the next number up to the first that is not pending; it is empty if and only if the next number is not pending or something older is. |
| `Relay.Drain` | internal/ports/in/relay.go:22-58 | One drain: nothing when the run is empty; otherwise one Apply of the whole run, and the entries leave the outbox if and only if it succeeded. |
| `Relay.DrainCatchesUp` | internal/ports/in/relay.go:22-58 | From an outbox holding exactly the events after the checkpoint, a drain brings the projection to the end of the log. |
| `Relay.DrainEmpties` | internal/ports/in/relay.go:51-57 | And leaves nothing pending. |
| `PostgresStore.Store.Append` | internal/adapters/postgres/event_store.go:16-38 | All events and outbox rows or none, numbered consecutively; a failed append changes no table and still moves the next number on by exactly one for each event inserted, the one whose outbox row is refused included; the projection is untouched. |
| `PostgresStore.Store.ListByConversation` | internal/adapters/postgres/event_store.go:45-61 | Exactly the conversation's rows of the event table, each under its own number, in increasing order. |
| `PostgresStore.Store.Pending` | internal/adapters/postgres/outbox.go:39-58 | Exactly the outbox rows not marked done, each with its number and event, in increasing order. |
| `PostgresStore.Store.MarkDone` | internal/adapters/postgres/queries/conversation_outbox.sql:15-16 | Sets the row's done mark and nothing else; an absent row is no error. |
| `PostgresStore.Store.Apply` | internal/adapters/postgres/projection.go:21-68 | All the statements and the checkpoint in one transaction: on the first refusal the tables stay as they were. |
| `PostgresStore.Store.Get` | internal/adapters/postgres/projection.go:141-206 | What the three queries, regrouped by thread, give for whatever committed tables each of them sees. |
| `PostgresStore.Store.GetByParticipant` | internal/adapters/postgres/projection_by_participant.go:16-79 | For the listed conversations in order, skipping one without a row: the filtered threads with their messages, each query on whatever committed tables it sees. |
| `PostgresTables.AssembleThreads` | internal/adapters/postgres/projection.go:178-196 | Regrouping messages through a map gives each thread its own messages, in row order. |
| `PostgresTables.HeapOrderIrrelevant` | internal/adapters/postgres/queries/conversation_projection.sql:49-53 | ORDER BY sequence makes the stored order of the rows irrelevant. |
| `PostgresRefinement.NeverRefused` | internal/adapters/postgres/migrations/00002_add_thread_to_conversation.sql:30-51 | On a well-formed log no statement violates a key or a reference, and no message row is skipped as a duplicate. |
| `PostgresRefinement.RowApplies` | internal/adapters/postgres/queries/conversation_projection.sql:1-37 | Tables that match a log match the longer log after the next event's statement. |
| `PostgresRefinement.BatchApplies` | internal/adapters/postgres/projection.go:21-68 | A whole run commits, the tables match the longer log and the checkpoint is its length. |
| `PostgresRefinement.CheckpointNeverFallsBack` | internal/adapters/postgres/queries/conversation_projection.sql:61-62 | On any tables a committed batch moves the checkpoint to its last sequence unless it is past that already. |
| `PostgresRefinement.RefusedRows` | internal/adapters/postgres/migrations/00002_add_thread_to_conversation.sql:30-51 | On any tables, their references intact, a statement is refused if and only if it starts a thread of an unknown conversation or one already there, or posts a new message to an unknown thread. |
| `PostgresRefinement.Redelivered` | internal/adapters/postgres/queries/conversation_projection.sql:1-37 | Applying an entry twice: a conversation, a message or a removal makes no difference, a thread start is refused. |
| `PostgresRefinement.TornGet` | internal/adapters/postgres/projection.go:141-206 | Get when its three reads see three different prefixes of the log: not found, or url, threads and messages each as of their own prefix. |
| `PostgresRefinement.WholeGet` | internal/adapters/postgres/projection.go:141-206 | When they see the same prefix: the view the log defines. |
| `PostgresRefinement.ExistsMatches` | internal/adapters/postgres/queries/conversation_projection.sql:44-47 | The EXISTS query holds exactly when the conversation has a started thread. |
| `PostgresRefinement.StoresAgree` | internal/adapters/postgres/projection.go:21-228 | After any well-formed log under any split into Apply calls, the two stores give equal answers to Get, Exists and Checkpoint, participants as lists. |
| `History.ViewsGrow` | internal/adapters/memory/projection.go:79-146 | From one prefix of a log to a longer one a view keeps its url, its threads as a prefix with their titles, and each thread's messages as a prefix; only participants may change otherwise. |
| `History.TornViewGrows` | internal/adapters/postgres/projection.go:141-206 | A view torn over three prefixes shows everything that one torn over three shorter ones shows. |
| `History.ParticipantsAreLastWord` | internal/adapters/memory/projection_participant.go:17-41 | Somebody is in the participant list if and only if the last event of the thread that names them lets them in. |
| `History.ReplyAuthorised` | internal/domain/reply.go:63-73 | Against a log's view a reply passes if and only if its thread was started in that conversation and its author is a participant of it. |
| `History.RemovedMayNotReply` | internal/domain/reply.go:63-73 | After a removal with no later addition the participant's replies to that thread are forbidden. |
| `Aggregate.RehydrateConversation` | internal/domain/manage_thread_participant.go:27-57 | Not found for no records; otherwise the fold of the events, a removal taking out the first occurrence only. |
| `Aggregate.ReplayHolds` | internal/domain/manage_thread_participant.go:27-57 | Replaying a conversation's own events of a well-formed log gives its id and exactly its started threads with their members. |
| `Aggregate.RepeatedAddition` | internal/domain/manage_thread_participant.go:81-95 | A repeated addition raises nothing, on any aggregate. |
| `Aggregate.RepeatedRemoval` | internal/domain/manage_thread_participant.go:100-114 | A repeated removal raises nothing if and only if there was one occurrence to remove. |
| `Aggregate.PlainStaysUninterleaved` | internal/ports/in/manage_thread_participant.go:44-82 | Starting conversations, adding threads and replying keep a log uninterleaved. |
| `Aggregate.AddThenRemoveRestores` | internal/domain/manage_thread_participant.go:81-114 | Adding somebody absent and removing them again restores the aggregate, list order included. |
| `Aggregate.ProjectionWithinAggregate` | internal/domain/manage_thread_participant.go:46-55 | On every log, interleaved commands included, nobody occurs more often in the projection than in the aggregate. |
| `Aggregate.AdmittedIsHeld` | internal/adapters/memory/projection_participant.go:26-35 | So whoever the projection admits is a member in the aggregate of the same log. |
| `Aggregate.AgreementCondition` | internal/domain/manage_thread_participant.go:50-54 | Aggregate and projection hold the same list after every prefix if and only if no removal met a participant the aggregate held twice. |
| `Aggregate.UninterleavedAgrees` | internal/ports/in/manage_thread_participant.go:44-82 | When every membership event was decided from the log just before it, aggregate and projection of every prefix hold the same duplicate-free list for every thread. |
| `Aggregate.InterleavedAddsDiverge` | internal/domain/manage_thread_participant.go:46-55 | From any log where somebody is absent: two interleaved additions and one removal leave the aggregate holding that person and the projection not. |
| `UseCases.StartConversation` | internal/ports/in/start_conversation.go:37-61 | The error of the first broken rule, in order, and an unchanged log; or the three events, every field as asked for, appended as one batch and the last sequence returned. |
| `UseCases.AddThread` | internal/ports/in/add_thread.go:38-69 | The fields in order, then existence in whatever the projection has applied; a refusal appends nothing, success appends both events as asked for. |
| `UseCases.ReplyToThread` | internal/ports/in/reply_to_thread.go:37-65 | The fields, the conversation, the thread and the author, in that order and against whatever the projection has applied; the message as asked for is appended if and only if all pass. |
| `UseCases.Manage` | internal/ports/in/manage_thread_participant.go:44-82 | An empty id, an unknown conversation, a thread not started in it, in that order; otherwise a no-op exactly when the aggregate has the participant as asked already, or the one event appended. |
| `UseCases.GetConversation` | internal/ports/in/get_conversation.go:27-39 | Not caught up if and only if the caller waits for a sequence above the checkpoint; every other call, waiting or not, is the projection's Get. |
| `UseCases.ListConversationEvents` | internal/ports/in/list_conversation_events.go:25-35 | Exactly the conversation's records in increasing order; not found if and only if there are none. |
| `UseCases.ManageKeepsUninterleaved` | internal/ports/in/manage_thread_participant.go:44-82 | A membership command nothing comes between keeps the log well formed and uninterleaved. |
| `UseCases.RepeatedAddition` | internal/ports/in/manage_thread_participant.go:68-74 | Issuing the same addition twice leaves every well-formed log as issuing it once. |
| `UseCases.RepeatedRemoval` | internal/ports/in/manage_thread_participant.go:68-74 | Issuing the same removal twice leaves the log as issuing it once if and only if it is refused or the aggregate held the participant at most once. |
| `UseCases.DistinctMembers` | internal/domain/conversation.go:96-101 | Without interleaving every thread's members stay free of duplicates. |
| `UseCases.AddThenRemove` | internal/ports/in/manage_thread_participant.go:44-82 | On every well-formed log, adding somebody absent and removing them restores the exact list of every thread of every conversation, in the aggregate and in the projection. |
| `Requests.ThreadDecided` | internal/domain/conversation.go:182-221 | Title, author, message, recipients, distinct recipients, author not among them, in that order: the first that is broken is the error. Otherwise the two events, field by field as asked for. |
| `Requests.StartDecided` | internal/domain/conversation.go:137-221 | The url is asked for first, then title, author, message, recipients, distinct recipients, author not among them: the first that is broken is the error. Otherwise the three events, field by field as asked for. |
| `Requests.ThreadAdded` | internal/ports/in/add_thread.go:38-69 | The same for an added thread, whose fields are looked at before the conversation is. |
| `Requests.ReplyDecided` | internal/ports/in/reply_to_thread.go:37-65 | Author, message, conversation, thread, membership: the first that is broken is the error; otherwise the message as asked for. |
| `Requests.MembershipDecided` | internal/ports/in/manage_thread_participant.go:44-82 | On every well-formed log: the first of the three rules broken, or no event exactly when the aggregate has the participant as asked already, or the event asked for. |
| `Requests.StartedWith` | internal/domain/conversation.go:96-101 | The participants of a thread just started are its author and then its recipients, and nobody else, for readers and for the aggregate. |
| `Requests.OpenedMembers` | internal/domain/manage_thread_participant.go:41-57 | After a thread is opened, reading the log and replaying the aggregate both give the author and then the recipients of the request. |
| `Requests.StarterLater` | internal/adapters/memory/projection_participant.go:17-41 | Later on a participant is exactly whoever was the author or a recipient and has an addition after every removal, or was neither and has an addition with no removal after it. |
| `Requests.RequestShows` | internal/adapters/memory/projection.go:79-146 | An accepted request changes its conversation's view in one way, written out for each of the five, and no other conversation's at all. |
| `PostgresInvariant.LogWellFormed` | internal/adapters/postgres/event_store.go:16-38 | Numbers respect causality although transactions commit in any order: creations before starts before messages and membership changes, each introduced once. |
| `PostgresSteps.NextKeepsInv` | internal/adapters/postgres/event_store.go:16-38 | Every step of every command and of the relay keeps the protocol's invariant and only ever adds to what is stored. |
| `PostgresSteps.PlannedApplies` | internal/ports/in/relay.go:47-49 | The relay's planned batch always commits. |
| `PostgresGuarantees.ProjectionIsFold` | internal/ports/in/relay.go:22-58 | In every reachable state every number up to the checkpoint is committed and the tables are those events applied once each in number order. |
| `PostgresGuarantees.CausalOrder` | internal/ports/in/reply_to_thread.go:50-59 | In every reachable state the numbered rows, and the committed ones alone, form a well-formed log, and a planned Apply is not refused. |
| `PostgresGuarantees.MembershipNamesItsConversation` | internal/ports/in/manage_thread_participant.go:60-77 | A membership command raises an event of exactly the conversation, thread and participant it was given, although the id comes from the rehydrated aggregate. |
| `PostgresTransactions.EventsListed` | internal/adapters/postgres/event_store.go:45-61 | In any state listing a conversation gives exactly its committed rows, each under the number it drew, in increasing order. |
| `PostgresTransactions.ListedEventsAreOwn` | internal/adapters/postgres/event_store.go:45-61 | Listing a conversation from the committed rows gives the events the membership commands rehydrate from. |
| `PostgresTransactions.LoneAppend` | internal/adapters/postgres/event_store.go:16-38 | Inserts and commit with nobody in between number the batch consecutively and change the event and outbox tables as the store's Append does. |
| `PostgresTransactions.LoneRollback` | internal/adapters/postgres/event_store.go:16-38 | A transaction rolled back after any number of its inserts leaves the event and outbox tables as they were, and the numbers move on by the rows inserted, as when the store's Append fails. |
| `PostgresTransactions.PendingIsListed` | internal/adapters/postgres/queries/conversation_outbox.sql:9-13 | What the relay lists in any state is what the store's Pending reads from the outbox table: the rows without a done mark. |
| `PostgresTransactions.MarkedIsDone` | internal/adapters/postgres/queries/conversation_outbox.sql:15-16 | Marking an entry changes the outbox table as the store's MarkDone does, and the event table not at all. |
| `PostgresGuarantees.DrainNoOp` | internal/ports/in/relay.go:34-45 | A drain does nothing if and only if the number after the checkpoint is not committed or an applied entry is still pending. |
| `PostgresGuarantees.DrainAdvances` | internal/ports/in/relay.go:32-49 | Otherwise it applies every number up to the first that is not committed. |
| `PostgresGuarantees.UndisturbedDrain` | internal/ports/in/relay.go:22-58 | A relay that lists, plans and applies undisturbed reaches exactly that state. |
| `PostgresGuarantees.QuietDrain` | internal/ports/in/relay.go:32-57 | With no transaction open a drain does nothing in exactly three cases: everything numbered is applied, the next number was rolled back, or an applied entry was left pending. |
| `PostgresGuarantees.LeftPendingStalls` | internal/ports/in/relay.go:51-55 | Once the relay idles with an applied entry left pending, the checkpoint never moves again in any continuation. |
| `PostgresGuarantees.GapStalls` | internal/adapters/postgres/migrations/00001_conversation_schema.sql:12-18 | A number drawn by a rolled-back append right after the checkpoint holds it there in any continuation. |
| `PostgresWitnesses.GapAfter` | internal/adapters/postgres/event_store.go:21-35 | From any state that has applied everything, an append that rolls back after its first insert leaves that number, and both tables as they were. |
| `PostgresWitnesses.GapReached` | internal/adapters/postgres/event_store.go:21-35 | Any acceptable conversation reaches such a gap. |
| `PostgresWitnesses.LeftPendingAfter` | internal/ports/in/relay.go:47-55 | From any state with something to drain, a relay that stops right after applying leaves an applied entry pending and is idle. |
| `PostgresWitnesses.LeftPendingReached` | internal/ports/in/relay.go:47-55 | Any acceptable conversation reaches that, with everything committed and applied. |
| `PostgresProgress.LeftPendingIffInterrupted` | internal/ports/in/relay.go:51-55 | While the relay is not marking, an applied entry is pending if and only if some earlier step stopped it with entries still to be marked. |
| `PostgresProgress.Progress` | internal/ports/in/relay.go:22-58 | In a run never stopped while marking, with no number rolled back and no transaction open, an idle relay applies everything in one drain. |
| `PostgresGuarantees.ReadAcrossRun` | internal/adapters/postgres/projection.go:141-206 | What a Get returns whose three reads fall on three states of a run. |
| `PostgresGuarantees.ReadsGrow` | internal/adapters/postgres/projection.go:141-206 | A Get each of whose reads comes no earlier than an earlier Get's, both torn or not, shows everything that one did, in the same places; participants apart. |
| `PostgresGuarantees.ReadYourWrites` | internal/ports/in/get_conversation.go:27-39 | Waiting for the sequence a committed command returned: not caught up exactly while the checkpoint is below it, and after that a successful read that shows the conversation, threads and messages of the command, even torn over three later states. |
| `PostgresGuarantees.ReadYourMembership` | internal/ports/in/get_conversation.go:27-39 | Of a membership command that read shows the participant in or out of the thread exactly as the later events up to the checkpoint of the thread rows leave them. |
| `PostgresRequests.RaisedByRules` | internal/ports/in/reply_to_thread.go:37-65 | Whenever everything drawn is committed and applied, each of the five commands is accepted if and only if none of its rules is broken and it has something to do, and raises exactly the events asked for. |
| `PostgresRequests.GetAnswers` | internal/ports/in/get_conversation.go:27-39 | In every run, for any moments of the checkpoint and the three reads: not caught up if and only if the caller waits for more than the checkpoint; otherwise, and always without waiting, not found or the view torn over the three reads. |
| `PostgresRequests.StartersRead` | internal/adapters/postgres/projection.go:141-206 | In every run a read that succeeds shows each thread in its thread rows with author and recipients as participants, as the later membership changes applied leave them. |
| `PostgresRequests.Served` | internal/ports/in/relay.go:22-58 | From any settled state of any run every accepted request is appended, drained and marked, leading to a settled state with its events last in the log and its conversation reading as the request makes it. |
| `PostgresRequests.StartedAndRead` | internal/ports/in/start_conversation.go:37-61 | Any acceptable conversation is started and read back: its url and one thread with its title, author and recipients as participants, and the opening message with its text and time. |
| `PostgresRequests.ThreadAddedAndRead` | internal/ports/in/add_thread.go:38-69 | Any acceptable thread is accepted by any conversation that can be read, and is read after the threads that were there, just as asked for. |
| `PostgresBatches.SplitExactly` | internal/ports/in/relay.go:32-49 | A drain ends inside a committed batch if and only if everything up to the batch's first number is committed and some number inside it is not. |
| `PostgresBatches.SplitInRun` | internal/ports/in/relay.go:22-58 | In every state of every run a batch is split if and only if the checkpoint is not past it and draining some earlier state broke it off that way. |
| `PostgresBatches.ConsecutiveNeverSplit` | internal/ports/in/relay.go:32-49 | The checkpoint never lies inside a batch with consecutive numbers, in any run. |
| `PostgresBatches.SplitShows` | internal/adapters/postgres/projection.go:141-206 | For any three reads on any three states: a batch's thread is shown if and only if the thread rows had its start applied and the conversation's row the conversation; its messages are empty if and only if the messages were read without its opening message applied, and otherwise begin with it. |
| `PostgresBatches.ConsecutiveShownWhole` | internal/adapters/postgres/projection.go:15-20 | A batch with consecutive numbers is shown with its opening message or not at all when the messages are read with no less applied than the thread rows. |
| `PostgresWitnesses.TornInsideBatch` | internal/adapters/postgres/projection.go:141-206 | Any acceptable conversation, alone and so with consecutive numbers, can be read with its thread and without its opening message, by a Get whose messages are read before the one Apply and whose other reads come after it. |
| `PostgresBatches.ReadIsApplied` | internal/adapters/postgres/projection.go:141-206 | What a reader misses is exactly what is numbered above the checkpoints its three reads saw: url, threads with participants, and messages, each as of its own. |
| `PostgresReplies.MessagesAreAuthorised` | internal/ports/in/reply_to_thread.go:37-65 | Every numbered message in every run opens a thread its own command started, or was admitted by tables that were current before it was numbered. |
| `PostgresReplies.AuthorAtAppend` | internal/ports/in/reply_to_thread.go:50-59 | The author of an admitted message is a participant among the events stored below its number if and only if every removal stored since those tables has an addition stored after it; rolled-back and open rows do not count. |
| `PostgresWitnesses.LateReply` | internal/ports/in/reply_to_thread.go:50-59 | From any state that accepts a removal and a reply of the member removed, the removal may commit first and the reply still be numbered and committed, its author no participant among the events stored below it. |
| `PostgresWitnesses.LateReplyReached` | internal/ports/in/reply_to_thread.go:50-59 | Any acceptable conversation reaches that. |
| `PostgresReplies.TornAuthorisation` | internal/domain/reply.go:63-73 | Authorisation against a torn view depends on the read of the thread rows alone. |
| `PostgresReplies.RemovedIsRefused` | internal/ports/in/reply_to_thread.go:50-59 | In every run, once a removal is in the read thread rows and no later addition is, the participant's replies to that thread are forbidden. |
| `PostgresWitnesses.HalfAppliedBatch` | internal/adapters/postgres/projection.go:15-20 | For any two acceptable conversations there is a run in which a reader is shown the first one's thread without its opening message. |
| `MemoryGuarantees.NextKeepsInv` | internal/adapters/memory/event_store.go:29-41 | Every atomic step of the in-memory system, use cases interleaved between their calls, keeps its invariant. |
| `MemoryGuarantees.BetweenDrains` | internal/adapters/memory/event_store.go:90-114 | Whenever the relay idles, the pending entries are exactly the events after the checkpoint, and the checkpoint is the log's length at the last listing, whatever was appended meanwhile. |
| `MemoryGuarantees.DrainReachesListing` | internal/ports/in/relay.go:22-58 | A planned run is always applied and moves the checkpoint to the listed length. |
| `MemoryGuarantees.BatchesSeenWhole` | internal/adapters/memory/projection.go:39-77 | In every reachable state the checkpoint is a boundary between appends and every visible thread begins with its opening message, by its author. |
| `MemoryGuarantees.ReadsGrow` | internal/adapters/memory/projection.go:79-146 | In every run a readable conversation stays readable and its view only grows, participants apart. |
| `MemoryRuns.ReadYourWrites` | internal/ports/in/get_conversation.go:27-39 | Waiting for the sequence an append returned: not caught up exactly while the checkpoint is below it, and after that a read that shows each event of the batch, membership changes as later events leave them. |
| `MemoryRuns.MessagesAreAuthorised` | internal/ports/in/reply_to_thread.go:37-65 | Every message in every run opens the thread started right before it, or was admitted by a projection from before it was appended. |
| `MemoryRuns.AuthorAtAppend` | internal/ports/in/reply_to_thread.go:50-59 | The author of an admitted message is a participant where it stands if and only if every removal appended since has an addition after it. |
| `MemoryRuns.RemovedIsRefused` | internal/ports/in/reply_to_thread.go:50-59 | In every run, once a removal is applied and no later addition is, the participant's replies to that thread are forbidden. |
| `MemoryRuns.ImmediateIsUninterleaved` | internal/ports/in/manage_thread_participant.go:60-77 | A run whose membership decisions are each followed at once by their append has an uninterleaved log in every state. |
| `MemoryRuns.ImmediateAgrees` | internal/adapters/memory/projection_participant.go:17-41 | In such a run the applied prefix has the same duplicate-free members in aggregate and projection. |
| `PostgresMembership.SerialIsUninterleaved` | internal/ports/in/manage_thread_participant.go:60-77 | In a Postgres run whose membership decisions are each inserted and closed before the next, what is applied is uninterleaved, although rehydration read only what had committed and other numbers were open or rolled back. |
| `PostgresMembership.SerialAgrees` | internal/adapters/postgres/queries/conversation_projection.sql:21-29 | In such a run aggregate and projection of what is applied hold the same duplicate-free members in every state. |
| `MemoryRuns.InterleavedAdds` | internal/ports/in/manage_thread_participant.go:60-77 | From any state where somebody is absent, two additions decided before either is appended and one removal make aggregate and projection differ. |
| `MemoryRuns.InterleavedAddsReached` | internal/ports/in/manage_thread_participant.go:60-77 | Any acceptable conversation reaches that. |
| `MemoryRequests.RaisedByRules` | internal/ports/in/reply_to_thread.go:37-65 | In memory, with everything applied, each command is accepted if and only if none of its rules is broken and it has something to do. |
| `MemoryRequests.GetAnswers` | internal/ports/in/get_conversation.go:27-39 | In every run: not caught up if and only if the caller waits for more than the checkpoint read first; otherwise, and always without waiting, not found or the view of what is applied. |
| `MemoryRequests.StartersRead` | internal/adapters/memory/projection.go:148-163 | In every run a thread whose start is applied can be read, with author and recipients as participants, as the later membership changes applied leave them. |
| `MemoryRequests.Served` | internal/ports/in/relay.go:22-58 | From any settled state every accepted request is appended and drained, leading to a settled state in which its conversation reads as the request makes it. |
| `MemoryRequests.StartedAndRead` | internal/ports/in/start_conversation.go:37-61 | Any acceptable conversation is started and read back just as asked for, with its opening message. |
| `MemoryRequests.ThreadAddedAndRead` | internal/ports/in/add_thread.go:38-69 | Any acceptable thread is accepted by any conversation that can be read, and is read after the threads that were there. |
| `ByParticipant.LatestIsNewest` | internal/adapters/memory/projection.go:138-140 | The time kept for a thread, by thread id alone, is the latest of its messages' times. |
| `ByParticipant.AnswersUnique` | internal/adapters/memory/projection.go:167-211 | Two exact answers for a log have the same views, and the same order unless two conversations tie. |
| `ParticipantAnswers.MemoryAnswers` | internal/adapters/memory/projection.go:167-211 | The in-memory answer is exact: once per conversation taken part in, only those threads in creation order, newest visible message first. |
| `ParticipantQueries.MaxIsGreatest` | internal/adapters/postgres/queries/conversation_projection.sql:72-76 | MAX with its FILTER is the greatest counted time, and null exactly when nothing is counted. |
| `ParticipantQueries.GroupAt` | internal/adapters/postgres/queries/conversation_projection.sql:77-83 | The self-join repeats rows but reaches exactly the messages of the admitted threads. |
| `ParticipantAnswers.GroupIffTakesPart` | internal/adapters/postgres/queries/conversation_projection.sql:77-84 | The query lists exactly the conversations the participant takes part in. |
| `ParticipantAnswers.JoinKeyIsNewest` | internal/adapters/postgres/queries/conversation_projection.sql:72-85 | The SQL sort key, raised to Go's zero time, is the in-memory key; it is that key unraised if and only if a visible thread has a message not before the zero time. |
| `ParticipantAnswers.ViewsOfMatch` | internal/adapters/postgres/projection_by_participant.go:25-76 | Whenever the first query ran: the conversations it named are shown as the participant sees them now, in its order. |
| `ParticipantAnswers.PostgresAnswers` | internal/adapters/postgres/projection_by_participant.go:16-79 | The Postgres answer is exact as well, whether or not every visible thread has a message. |
| `ParticipantAnswers.ListingsAgree` | internal/adapters/postgres/queries/conversation_projection.sql:67-85 | After any well-formed log under any split, both stores list the same views, in the same order unless two conversations tie. |
| `History.ParticipantLater` | internal/adapters/memory/projection_participant.go:17-41 | Who is a participant of a started thread later on is exactly who was and has an addition after every removal, or was not and has an addition with no removal after it. |
| `ParticipantRuns.MemoryRunAnswers` | internal/adapters/memory/projection.go:167-211 | In every reachable in-memory state the list is exact for the events applied so far. |
| `ParticipantAnswers.TornViewAt` | internal/adapters/postgres/projection_by_participant.go:25-76 | One listed conversation whose row, threads and messages are read after three prefixes: the threads the participant is in at the second, each with its messages as of the third, or none if the participant is not in it then. |
| `ParticipantRuns.TornListing` | internal/adapters/postgres/projection_by_participant.go:16-79 | A listing whose queries see any later states of a run lists the conversations taken part in when the first query ran, each torn over the states its own queries saw. |
| `ParticipantRuns.PostgresRunAnswers` | internal/adapters/postgres/projection_by_participant.go:16-79 | When all its queries see one state the list is exact for the events applied so far. |
| `Collections.SortByOrders` | internal/adapters/memory/projection.go:112-116 | The sort the source delegates to its library: ordered and a permutation. |
| `Collections.SortByStable` | internal/adapters/memory/projection.go:201-203 | And stable: equal keys keep their order. |
| `Collections.RemovalsAgree` | internal/domain/manage_thread_participant.go:50-54 | Removing the first occurrence and removing all give the same list if and only if there is at most one. |

## Left out

- HTTP handlers, the generated API, the documentation UI and the mapping of errors to statuses: no state of their own.
- Command wiring, tickers, connection pools, migrations as programs, containers: input and output only.
- JSON payloads of stored events and their decoding: a stored event is the event itself.
- Building and parsing Location headers: depends on URL and number formatting that is not part of this model.
- The outbox port's Enqueue: no use case calls it, because Append enqueues.
- Failing calls of the in-memory adapters: they return no error other than the ones modelled. In Postgres a failing
  call is a rollback, a refused statement, or the relay stopping.
- Slices shared between a returned in-memory view and a later Apply: views are values here, so nothing is said
  about a caller that holds one view across later calls.
- Several relays at once, leader election, retries, delays and other real-time bounds: `docs/write-path.md:41`
  promises one relay.
- Time zones, and times finer than their order.
- Random ids: a decision step draws ids that no earlier step drew, and thread ids are unique across conversations.
- Go's `sort.SliceStable` and SQL's ORDER BY are the function `Collections.SortBy`, an insertion sort proved stable,
  rather than the libraries' own algorithms.
- Events of a type the switch statements do not know: the five variants are all there are.
- `PostgresStore.Store.Get`: the three reads run one after the other, each on the committed tables it is given;
  that they run at the same time is the freedom to give it any three.
- `PostgresStore.Store.GetByParticipant`: takes the first query's result as a parameter, constrained by
  `ParticipantQueries.Selected` where it matters, because SQL leaves the order of equal keys open.
- `PostgresStore.Store.ListByConversation`: counts through the numbers where the database uses its index.
- `MemoryLaws.ThreadOrderConfluent`: about threads of one conversation; starts in other conversations do not
  matter to it by `MemoryLaws.ConversationsIndependent`.
- `PostgresWitnesses.HalfAppliedBatch`: needs the two conversations' ids to differ, as drawn ids do.
- `GetConversationsByParticipant` as a use case: it passes its call on.
- `PostgresWitnesses.LateReplyReached`: the author removed has a non-empty id, which a membership command requires.
