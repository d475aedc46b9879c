# Conversation, channel and operations model

A Dafny model of the parts of the CNB platform whose correctness is decided by protocols and
data transformations, with proofs of what they guarantee:

- **Conversation replication.** The server keeps one ordered event log per conversation
  (`ConversationLog`, `ConversationRepository`). The browser folds that log into a message list
  (`ChatEvents`, `ChatReducerProofs`), reconnects after its last sequence, drops frames it has
  seen, loads history pages and injects the HTTP response of a send outside the sequence
  (`ChatClient`, `ChatRace`). `ChatProtocol` is the state machine over log, connection and page,
  `ChatRuns` holds the theorems about every run and `ChatWitnesses` runs on the failing side.
  `ConversationStory` and `ConversationMirror` join both ends: exactly when a browser that has
  caught up shows what the server stores, history pages and accept responses included.
  `ConversationLaws` states what every repository operation stores and logs, field by field.
- **Capability negotiation.** A multimodal message is rewritten for a weaker platform
  (`ChannelNegotiation`, `ChannelAdapter`, `MarkdownText`); `ChannelProofs`, `ChannelTheorems` and
  `ChannelLaws` show transparency, conservation, monotonicity, the fixpoint law and the exact
  text limit; `ChannelExact` says which blocks are accepted, what exactly is reported and when a
  message goes through.
- **Backfills.** `MessageParts` (window-numbered content blocks) and `AgentScope` (three
  prioritised updates).
- **Small protocols with partial failure.** `RecommendationSaga` with `RecommendationLaws`,
  `AgentSelection`, `RetryLoops`.
- **Round trips.** `ConfigurationDraft` with `ConfigurationLaws`, `HeaderParsing` with `HeaderLaws`
  and `Utf8`.

Code that changes state is a class or a method with loops, proved equal to a specification
function. What the specification functions compute is stated again by lemmas in terms of fields,
characters and constants (`...Exact`, `...Stores`, `...Shown`), and the laws are lemmas about them.
Theorems quantify over every log, run, message, platform, table or outcome script.

Verify with `dafny verify dfyconfig.toml`.

## Findings

Each of these is a theorem with the exact condition under which the code does what one would
expect, and a lemma with a concrete input on the failing side.

- Accept responses and history pages bring stored messages into a list that the socket is
  updating. A message ends as stored exactly when its standing is in step
  (`ChatRuns.ProtocolRace`, `ConversationMirror.SessionMirrors`). Two ways to fail: a response
  that arrives after its run was shown failed puts the message back to `processing`, because the
  guard at apps/web/src/chatEvents.ts:28-35 does not list cancelled and failed
  (`ChatWitnesses.LateAnswer`); and the response to a resent message carries text that the socket
  then delivers again, for good if the run is cancelled (`ChatWitnesses.DoubledText`).
- The run indicator is set by a late accept response of a run that has ended, and cleared by the
  end of any run (`ChatRuns.IndicatorExact`, `ChatWitnesses.LateAnswer`).
- A history page older than what the socket has applied hides a finished message until the
  conversation is selected again (`ChatRuns.HistoryLoad`, `ChatWitnesses.StalePage`).
- Plain text made from Markdown is not checked against the `text` capability and can vanish
  (`ChannelLaws.SingleTextExact`, `ChannelLaws.UncheckedDowngrade`,
  `ChannelLaws.VanishedMarkdown`); a piece cut from a long text can be blank, and such a result
  cannot be sent again (`ChannelLaws.Fixpoint`, `ChannelLaws.BlankPieceSpoilsFixpoint`).
- Opening a configuration scope and saving it without edits pins every editable key to the default
  it displayed, and so overrides what broader scopes set (`ConfigurationDraft.UneditedSavePins`,
  `ConfigurationDraft.UneditedSaveUndoesLimit`).
- An alert whose disposition was taken but not reported can become impossible to accept or reject
  from the page (`RecommendationSaga.NeverReported`). Usually its disposition takes it off the
  list, and its button is gone at the next refetch (`RecommendationSaga.HiddenByItsDisposition`).
  It can also stay on the list and be stuck, because the page does not dispose again while the
  server wants another disposition (`RecommendationSaga.StuckByStaleList`,
  `RecommendationSaga.StuckByExpiry`). And an acceptance is recorded as observing although a
  disposition is in force when the recommendation has meanwhile become to observe
  (`RecommendationSaga.UntrueReport`, `RecommendationSaga.ReportedAsObserving`).
- Two tabs that select at the same time end up apart, and one of them apart from storage
  (`AgentSelection.AgreeStep`, `AgentSelection.CrossingWritesDiverge`).
- When webhook retries run out, the error code comes from the last status ever received, not
  from the last attempt (`RetryLoops.ExhaustedCode`, `RetryLoops.RejectedAfterTimeouts`).
- `fail_run` fails a run that had completed
  (packages/infrastructure/src/cnb_infrastructure/conversation_repository.py:996-1022,
  `ConversationMirror.FailedAfterCompletion`); the mirror theorems hold nevertheless.

## Model

| member | source | states |
|---|---|---|
| `ChatEvents.StableSortCorrect` | apps/web/src/chatEvents.ts:22-24 | the list sort is sorted by creation time, and messages created at the same time keep their order |
| `ChatEvents.StableSortMembers` | apps/web/src/chatEvents.ts:22-24 | the sort neither loses nor invents a message |
| `ChatReducerProofs.FoldIsPerMessage` | apps/web/src/chatEvents.ts:17-108 | over every event sequence ids stay unique and each message evolves by its own events alone |
| `ChatReducerProofs.IdsExactly` | apps/web/src/chatEvents.ts:20-27 | the shown ids are exactly the initial ones and those of creating payloads: nothing disappears |
| `ChatReducerProofs.OrderKept` | apps/web/src/chatEvents.ts:21-46 | creation order is kept over every sequence whose payloads keep a known id's creation time |
| `ChatReducerProofs.ProjectionKept` | apps/web/src/chatEvents.ts:36-45 | every position-0 text or markdown part equals the message content after any events, if payload parts do |
| `ChatReducerProofs.Convergence` | apps/web/src/chatEvents.ts:17-108 | from any two lists with unique ids the same events give the same message when its last event is a payload with a final status; with parts it is the payload itself |
| `ChatReducerProofs.OverwriteBoundary` | apps/web/src/chatEvents.ts:28-35 | a payload overwrites every earlier state if and only if its status is not processing |
| `ChatReducerProofs.DeltaShown` | apps/web/src/chatEvents.ts:82-100 | a delta with message id and text appends to the content and to every position-0 text or markdown part, which takes the event time, and the message is streaming; nothing else changes |
| `ChatReducerProofs.AbortShown` | apps/web/src/chatEvents.ts:101-106 | a cancelled or failed run marks its response cancelled or failed and nothing else |
| `ChatReducerProofs.NewShown` | apps/web/src/chatEvents.ts:17-24 | a complete payload of an unlisted id lists the message with its parts, or with one legacy markdown part when it has none |
| `ChatReducerProofs.PayloadShown` | apps/web/src/chatEvents.ts:26-46 | a complete payload of a listed id is ignored if it is processing over streaming, completed or suppressed; otherwise it replaces the message, or its head and body parts when it has no parts |
| `ChatReducerProofs.OtherShown` | apps/web/src/chatEvents.ts:70-108 | every other event leaves every message as it is |
| `ChatReducerProofs.UnlistedShown` | apps/web/src/chatEvents.ts:82-106 | deltas and aborts of an unlisted message show nothing |
| `ChatRace.RaceExact` | apps/web/src/views/ChatPage.tsx:237-252 | for every stream of logged events, accept responses and history pages that bring stored messages, a message is shown as stored if and only if its standing -- surplus text and status -- is in step |
| `ChatRace.OneAnswer` | apps/web/src/views/ChatPage.tsx:237-252 | one accept response carrying any stored state among delivered events: shown as stored if and only if it is ignored, or overwritten by a later payload, or carries exactly the text delivered so far and a right status follows |
| `ChatRace.FirstAnswersHarmless` | apps/web/src/views/ChatPage.tsx:237-252 | accept responses that carry the created message leave no trace at all, unless one arrives right after an abort |
| `ChatRace.StreamedText` | apps/web/src/chatEvents.ts:82-100 | during a run the shown text is the created text and exactly the logged deltas, or off by exactly its standing |
| `ChatRace.FinishedStands` | apps/web/src/chatEvents.ts:26-35 | pages and answers not older than what was delivered cannot disturb a finished message |
| `ChatClient.ChatPage.Select` | apps/web/src/views/ChatPage.tsx:228 | selecting a conversation restarts the sequence and nothing else |
| `ChatClient.ChatPage.Connect` | apps/web/src/views/ChatPage.tsx:194-200 | a connection asks for a sequence beyond which lies exactly the part of the log not covered yet |
| `ChatClient.ChatPage.OnMessage` | apps/web/src/views/ChatPage.tsx:203-221 | frames without a newer sequence change nothing; any other is folded once, moves the sequence, sets the indicator if it queues or starts a run with an id, and clears it if it ends one |
| `ChatClient.ChatPage.OnHistory` | apps/web/src/views/ChatPage.tsx:181 | a history page replaces the list and leaves the sequence |
| `ChatClient.ChatPage.OnAccepted` | apps/web/src/views/ChatPage.tsx:237-252 | an accept response folds both messages in, sets the indicator, keeps the sequence, and both messages are shown |
| `ChatClient.AcceptedList` | apps/web/src/views/ChatPage.tsx:237-252 | an accept response of two new messages adds exactly them, question before answer, in creation order |
| `ChatProtocol.DeliverStep` | apps/web/src/views/ChatPage.tsx:207-210 | a delivered frame is exactly the next logged event or changes nothing |
| `ChatProtocol.ResumeExactly` | apps/web/src/views/ChatPage.tsx:194-200 | the log asked for at a connection is exactly the part not yet applied |
| `ChatProtocol.StepExact` | apps/web/src/views/ChatPage.tsx:189-235 | each protocol action, when it is possible, and what it leaves alone |
| `ChatProtocol.ValidStep` | apps/web/src/views/ChatPage.tsx:189-235 | every protocol step keeps the invariant, the log only grows, the sequence never goes back, and at most one event is applied |
| `ChatProtocol.ValidRun` | apps/web/src/views/ChatPage.tsx:189-235 | the same over every run |
| `ChatRuns.RunIsStream` | apps/web/src/views/ChatPage.tsx:189-252 | over every run the page is explained by one stream: the log events passed over, once each and in order, with accept responses and history pages between |
| `ChatRuns.ExactlyOnce` | apps/web/src/views/ChatPage.tsx:189-229 | for every interleaving of logging, connects, losses, repeated frames and heartbeats the page is the fold of exactly the log prefix up to its last sequence |
| `ChatRuns.ProtocolRace` | apps/web/src/views/ChatPage.tsx:181-252 | the exact race theorem for every protocol run from the selection of a conversation |
| `ChatWitnesses.LateAnswer` | apps/web/src/views/ChatPage.tsx:237-252 | a run in which a failed message is shown as processing again and its run as active |
| `ChatWitnesses.DoubledText` | apps/web/src/views/ChatPage.tsx:280-296 | a run in which the answer to a resent message doubles the text for good |
| `ChatWitnesses.StalePage` | apps/web/src/views/ChatPage.tsx:181 | a run in which a late history page removes a finished message |
| `ChatRuns.IndicatorExact` | apps/web/src/views/ChatPage.tsx:211-216 | the run indicator is empty if and only if the last update that concerns it is the end of some run |
| `ChatRuns.IndicatorNames` | apps/web/src/views/ChatPage.tsx:211-216 | over every stream the indicator names run r if and only if the last update that concerns it queues, starts or accepts r, or there is none and it named r before |
| `ChatRuns.CanCatchUp` | apps/web/src/views/ChatPage.tsx:194-229 | from every reachable state reconnecting reaches the end of the log and shows its fold |
| `ChatRuns.HistoryLoad` | apps/web/src/views/ChatPage.tsx:181 | a finished message is shown after a history load if and only if its event was still to come or the page already had it |
| `ConversationRepository.Repository.AppendEvent` | packages/infrastructure/src/cnb_infrastructure/conversation_repository.py:1211-1235 | an event gets the next sequence and is appended |
| `ConversationRepository.Repository.NextTime` | packages/infrastructure/src/cnb_infrastructure/conversation_repository.py:1181-1188 | the loop computes the clock moved past the latest stored message |
| `ConversationRepository.Repository.BeginAgentRun` | packages/infrastructure/src/cnb_infrastructure/conversation_repository.py:504-628 | a new client id stores trigger with its files and response, queues a run and logs three events; a known one changes nothing and returns its run; a foreign attachment is a conflict |
| `ConversationRepository.Repository.MarkRunStarted` | packages/infrastructure/src/cnb_infrastructure/conversation_repository.py:901-922 | only a queued run starts; new state and error cases |
| `ConversationRepository.Repository.AppendRunDelta` | packages/infrastructure/src/cnb_infrastructure/conversation_repository.py:924-954 | only a running run takes text; content, body part and log grow together |
| `ConversationRepository.Repository.CompleteRun` | packages/infrastructure/src/cnb_infrastructure/conversation_repository.py:956-994 | only a running run completes, visibly or suppressed, with two events |
| `ConversationRepository.Repository.FailRun` | packages/infrastructure/src/cnb_infrastructure/conversation_repository.py:996-1022 | every run that is not cancelled can fail |
| `ConversationRepository.Repository.CancelRun` | packages/infrastructure/src/cnb_infrastructure/conversation_repository.py:1024-1050 | an open run is cancelled, a closed one is returned unchanged |
| `ConversationLaws.SendStores` | packages/infrastructure/src/cnb_infrastructure/conversation_repository.py:504-628 | a new send stores, in order, the question -- text, client id, sender, status, one markdown part and one part per file with position, id, type, name, size, digest and alt text -- and a later empty processing answer, and nothing else |
| `ConversationLaws.SendLogs` | packages/infrastructure/src/cnb_infrastructure/conversation_repository.py:504-628 | it queues one run for the answer and logs two creations and the queued run with consecutive sequences |
| `ConversationLaws.SendIgnored` | packages/infrastructure/src/cnb_infrastructure/conversation_repository.py:504-628 | nothing is stored if and only if the client id is known or some file is not an uploaded file of this user, conversation and message |
| `ConversationLaws.NextTimeExact` | packages/infrastructure/src/cnb_infrastructure/conversation_repository.py:1181-1188 | a new message gets the clock time, or the least time after every stored message |
| `ConversationLaws.StartStores` | packages/infrastructure/src/cnb_infrastructure/conversation_repository.py:901-922 | a queued run becomes running, its answer streaming, one event is logged; in any other status nothing changes |
| `ConversationLaws.DeltaStores` | packages/infrastructure/src/cnb_infrastructure/conversation_repository.py:924-954 | a running run's answer grows by the text in content and body parts, one event with that text is logged; otherwise nothing changes |
| `ConversationLaws.CompleteStores` | packages/infrastructure/src/cnb_infrastructure/conversation_repository.py:956-994 | a running run is done, its answer completed or suppressed as asked, two events are logged; otherwise nothing changes |
| `ConversationLaws.FailStores` | packages/infrastructure/src/cnb_infrastructure/conversation_repository.py:996-1022 | a run that is not cancelled is broken with the reason, its answer failed, one event is logged; otherwise nothing changes |
| `ConversationLaws.CancelStores` | packages/infrastructure/src/cnb_infrastructure/conversation_repository.py:1024-1050 | an open run and its answer are cancelled, one event is logged; otherwise nothing changes |
| `ConversationLog.BeginConsistent` | packages/infrastructure/src/cnb_infrastructure/conversation_repository.py:504-628 | a send keeps that replaying the log shows the stored messages in order, also when the clock goes back |
| `ConversationLog.StartConsistent` | packages/infrastructure/src/cnb_infrastructure/conversation_repository.py:901-922 | starting a run keeps that |
| `ConversationLog.DeltaConsistent` | packages/infrastructure/src/cnb_infrastructure/conversation_repository.py:924-954 | appending text keeps that |
| `ConversationLog.CompleteConsistent` | packages/infrastructure/src/cnb_infrastructure/conversation_repository.py:956-994 | completing a run keeps that |
| `ConversationLog.FailConsistent` | packages/infrastructure/src/cnb_infrastructure/conversation_repository.py:996-1022 | failing a run, even a completed one, keeps that |
| `ConversationLog.CancelConsistent` | packages/infrastructure/src/cnb_infrastructure/conversation_repository.py:1024-1050 | cancelling a run keeps that |
| `ConversationMirror.ServeConsistent` | packages/infrastructure/src/cnb_infrastructure/conversation_repository.py:504-1050 | every operation keeps the store equal to the replay of its log, up to update times of open and aborted runs |
| `ConversationMirror.ServeActs` | packages/infrastructure/src/cnb_infrastructure/conversation_repository.py:504-1050 | in every history each operation that is possible takes place, in order, from an empty store |
| `ConversationMirror.ServedStoried` | packages/infrastructure/src/cnb_infrastructure/conversation_repository.py:504-1050 | every history of operations logs, for each message, its creation and then text, at most one finished payload with exactly that text, and aborts |
| `ConversationMirror.StoredStory` | packages/infrastructure/src/cnb_infrastructure/conversation_repository.py:504-1050 | so the race theorems apply to every stored message, and its body part equals its content |
| `ConversationMirror.SessionMirrors` | apps/web/src/views/ChatPage.tsx:181-252 | in every session with history pages and accept responses of the store, once caught up a message is shown as stored if and only if its standing is in step |
| `ConversationMirror.FinishedShown` | apps/web/src/views/ChatPage.tsx:181-252 | if no page and no answer is older than what the browser has applied, every finished message is shown exactly as stored |
| `ConversationMirror.SessionListed` | apps/web/src/views/ChatPage.tsx:181-252 | in every such session the list has no message twice, holds stored messages only, and is in creation order whenever the pages are |
| `ConversationMirror.CaughtUpMirrors` | apps/api/src/cnb_api/routes/conversation.py:493-536 | in a session without history pages and accept responses, a caught-up browser lists the stored messages in order, each mirroring the stored one |
| `ConversationMirror.StoreCanBeShown` | apps/web/src/views/ChatPage.tsx:194-229 | for every history of operations some protocol run brings the browser to the end of the log, mirroring the store |
| `ConversationMirror.FinishedMessagesEqual` | apps/api/src/cnb_api/routes/conversation.py:493-536 | in such a session a received, completed or suppressed message is shown at its place exactly as stored |
| `ConversationMirror.FailedAfterCompletion` | packages/infrastructure/src/cnb_infrastructure/conversation_repository.py:996-1022 | a history in which a completed message is marked failed |
| `MarkdownText.DowngradeIsSubsequence` | packages/adapters/src/cnb_adapters/channel.py:347-359 | the ten passes and the final strip yield a subsequence of the input, never longer |
| `MarkdownText.SubstituteIsSubsequence` | packages/adapters/src/cnb_adapters/channel.py:349-358 | replacing disjoint matches by inner spans yields a subsequence |
| `MarkdownText.SubstituteLength` | packages/adapters/src/cnb_adapters/channel.py:349-358 | a pass takes away exactly what its matches drop |
| `MarkdownText.SubstituteOne` | packages/adapters/src/cnb_adapters/channel.py:349-358 | one match is replaced by the span it keeps |
| `MarkdownText.PassesInOrder` | packages/adapters/src/cnb_adapters/channel.py:349-358 | each pass is applied to the result of the one before |
| `MarkdownText.PlainTextTrimmed` | packages/adapters/src/cnb_adapters/channel.py:359 | the plain text is that result without white space at its ends |
| `PythonText.SpaceExact` | packages/adapters/src/cnb_adapters/channel.py:300 | the white space of `str.strip`, character by character |
| `PythonText.StripExact` | packages/adapters/src/cnb_adapters/channel.py:300 | stripping takes white space off both ends and nothing else |
| `PythonText.LowerExact` | packages/adapters/src/cnb_adapters/channel.py:312 | lower-casing changes A to Z and the Kelvin sign, character by character |
| `ChannelAdapter.NegotiateCapabilities` | packages/adapters/src/cnb_adapters/channel.py:204-279 | the two loops compute the specification: first error, rewritten blocks, reported list, thread and edit ids |
| `ChannelAdapter.NormalizeBlocks` | packages/adapters/src/cnb_adapters/channel.py:224-252 | the first loop stops at the first offending block, otherwise rewrites each block and collects the reasons |
| `ChannelAdapter.RewriteBlock` | packages/adapters/src/cnb_adapters/channel.py:226-252 | one round: the branch taken for a kind and a platform, its block, reason or error |
| `ChannelAdapter.ExpandBlocks` | packages/adapters/src/cnb_adapters/channel.py:254-266 | the second loop splits every text and reports each split |
| `ChannelAdapter.SplitText` | packages/adapters/src/cnb_adapters/channel.py:257-261 | the slice loop computes the pieces |
| `ChannelProofs.ChunksConserve` | packages/adapters/src/cnb_adapters/channel.py:258-261 | the pieces concatenate to the text, none is empty or too long, all but the last are full |
| `ChannelProofs.ChunkCount` | packages/adapters/src/cnb_adapters/channel.py:301-302 | the number of pieces is at most a limit if and only if the length is at most size times limit |
| `ChannelProofs.DistinctReport` | packages/adapters/src/cnb_adapters/channel.py:275 | the report has every degradation once, in order of first occurrence |
| `ChannelProofs.OutputSupported` | packages/adapters/src/cnb_adapters/channel.py:227-252 | every block of a result is of a kind the target carries, or plain text made from Markdown |
| `ChannelTheorems.Transparency` | packages/adapters/src/cnb_adapters/channel.py:204-279 | nothing is reported if and only if blocks, thread and edit id are the requested ones and nothing is buffered |
| `ChannelTheorems.Conservation` | packages/adapters/src/cnb_adapters/channel.py:224-279 | a result is one consecutive group per block in order, each delivering what its block means in bounded pieces; 1 to max_blocks in all |
| `ChannelLaws.FirstErrorIsFirst` | packages/adapters/src/cnb_adapters/channel.py:225-250 | the reported error is that of the first offending block |
| `ChannelLaws.OutputSafe` | packages/adapters/src/cnb_adapters/channel.py:304-332 | every attachment of a result, converted or not, has safe metadata within the target's limits |
| `ChannelLaws.AttachmentsKept` | packages/adapters/src/cnb_adapters/channel.py:282-291 | attachment ids and total bytes are the same before and after if and only if no attachment was mentioned in text; always when files are supported |
| `ChannelLaws.Monotonicity` | packages/adapters/src/cnb_adapters/channel.py:209-272 | with more capabilities a successful negotiation stays successful and never has more blocks |
| `ChannelLaws.Fixpoint` | packages/adapters/src/cnb_adapters/channel.py:204-279 | negotiating a result again gives it back with nothing reported if and only if no piece is blank and plain text is supported where it occurs |
| `ChannelLaws.FixpointForTextTargets` | packages/adapters/src/cnb_adapters/channel.py:298-303 | with text or Markdown support only a blank piece spoils the fixpoint |
| `ChannelLaws.SingleTextExact` | packages/adapters/src/cnb_adapters/channel.py:299-302 | one text block goes through if and only if it is not blank, within the total limit, of a carried kind and does not vanish when downgraded |
| `ChannelExact.SingleAttachmentExact` | packages/adapters/src/cnb_adapters/channel.py:224-332 | one image or file goes through if and only if its five fields are there, its trimmed lower-cased type is one of ten, fits the kind and is accepted, size, 64-digit digest and file name are valid, and the platform carries it, takes it as a file, or can mention it within its limits |
| `ChannelExact.BlockRefused` | packages/adapters/src/cnb_adapters/channel.py:225-250 | every refused block is refused for the first rule it breaks, metadata before kind |
| `ChannelExact.AttachmentRefused` | packages/adapters/src/cnb_adapters/channel.py:304-332 | the metadata rules, in order, each with its error |
| `ChannelExact.RefusedExactly` | packages/adapters/src/cnb_adapters/channel.py:209-272 | a message goes through if and only if it may be started, every block is accepted and 1 to max_blocks blocks are left; otherwise the error says which fails |
| `ChannelExact.ReportExact` | packages/adapters/src/cnb_adapters/channel.py:210-275 | each of the eight degradations is reported if and only if the request and the platform bring it about |
| `ChannelExact.SplitReportedLast` | packages/adapters/src/cnb_adapters/channel.py:254-266 | a split text is reported last |
| `ChannelExact.TransportExact` | packages/adapters/src/cnb_adapters/channel.py:211-222 | streaming, thread and edit losses are reported first, in this order; thread and edit id survive exactly where supported |
| `ChannelLaws.BlankPieceSpoilsFixpoint` | packages/adapters/src/cnb_adapters/channel.py:257-261 | a text whose first piece is blank: sent, and refused when sent again |
| `ChannelLaws.UncheckedDowngrade` | packages/adapters/src/cnb_adapters/channel.py:227-233 | for all passes, valid Markdown for a platform with neither Markdown nor text goes out as plain text, and is refused when sent again |
| `ChannelLaws.VanishedMarkdown` | packages/adapters/src/cnb_adapters/channel.py:258-268 | for all passes, valid Markdown is refused by a platform without Markdown if and only if the passes leave nothing of it |
| `ChannelLaws.EmptyCodeBlock` | packages/adapters/src/cnb_adapters/channel.py:349 | a pass that takes the fences off leaves nothing of an empty code block, which is not blank |
| `MessageParts.MessagePartsTable.Upgrade` | migrations/versions/20260910_0015_message_parts.py:78-117 | the two inserts fill the table with the specified rows |
| `MessageParts.BackfillLegal` | migrations/versions/20260910_0015_message_parts.py:48-66 | from every legal state primary key, unique position, shape checks and foreign keys hold |
| `MessageParts.HexDigestExact` | migrations/versions/20260910_0015_message_parts.py:59-60 | the digest pattern is 64 lower-case hexadecimal digits |
| `MessageParts.TextAtZero` | migrations/versions/20260910_0015_message_parts.py:78-89 | position 0, and only it, is the markdown part with the content, times and tenant of the message and no file fields |
| `MessageParts.PositionsExactly` | migrations/versions/20260910_0015_message_parts.py:90-117 | a message with n attached files has parts at positions exactly 0..n |
| `MessageParts.FilesInOrder` | migrations/versions/20260910_0015_message_parts.py:102-104 | positions order the files by creation time and id, and different files have different positions |
| `MessageParts.FileRow` | migrations/versions/20260910_0015_message_parts.py:90-117 | every attached file has its row, with its metadata, kind, position, and its creation and latest known times |
| `MessageParts.FilesExactly` | migrations/versions/20260910_0015_message_parts.py:114-115 | the files of a message are its attached attachments |
| `MessageParts.RankOnto` | migrations/versions/20260910_0015_message_parts.py:102-104 | row numbers of a partition take every value from 1 to its size |
| `MessageParts.BackfillProjects` | README.md:41 | messages served from the backfilled rows have the body projection that the reducer maintains |
| `AgentScope.BackgroundJobs.Upgrade` | migrations/versions/20260914_0029_background_job_agent_scope.py:26-72 | three statements in order, each over every row |
| `AgentScope.UpgradeIsCoalesce` | migrations/versions/20260914_0029_background_job_agent_scope.py:26-72 | a job gets an agent if and only if it is the first valid one of payload, inbox event and scheduled action; nothing else changes |
| `AgentScope.UuidExact` | migrations/versions/20260914_0029_background_job_agent_scope.py:30-34 | the pattern and the cast accept exactly five hyphenated groups of 8, 4, 4, 4 and 12 digits in any case, and give the identifier with the same digits |
| `AgentScope.TenantScoped` | migrations/versions/20260914_0029_background_job_agent_scope.py:35-69 | every agent filled in belongs to the job's own tenant |
| `AgentScope.RowOrderIrrelevant` | migrations/versions/20260914_0029_background_job_agent_scope.py:44-72 | the result does not depend on the order of rows in any table |
| `AgentScope.RerunChangesNothing` | migrations/versions/20260914_0029_background_job_agent_scope.py:26-72 | running the statements again changes nothing |
| `RecommendationSaga.AlertService.ListRecommendations` | packages/application/src/cnb_application/observability_service.py:1004-1019 | the list offers exactly the active alerts with no disposition in force and no feedback |
| `RecommendationSaga.AlertService.SubmitReport` | packages/application/src/cnb_application/observability_service.py:1148-1245 | one report: unconfirmed or about an ended alert it is refused, a repeated decision returns the record, another is refused, an acting acceptance needs its disposition in force |
| `RecommendationSaga.RecommendationPanel.Refetch` | apps/web/src/views/ObservabilityPage.tsx:121-134 | a fetched list replaces the one displayed |
| `RecommendationSaga.RecommendationPanel.SubmitFeedback` | apps/web/src/views/ObservabilityPage.tsx:280-323 | one press on a listed alert, with either call or either answer lost and others and refetches in between: new page, new service, failure |
| `RecommendationLaws.ReportSucceeds` | packages/application/src/cnb_application/observability_service.py:1148-1245 | a report succeeds if and only if it is confirmed and repeats the recorded decision, or nothing is recorded, the alert is active and it is an acceptance that is observing or disposed of as recommended, or a rejection in favour of another action |
| `RecommendationLaws.ReportRecords` | packages/application/src/cnb_application/observability_service.py:1225-1245 | a success records decision, current recommendation and alternative where nothing was recorded, and changes nothing else |
| `RecommendationLaws.ReportRefuses` | packages/application/src/cnb_application/observability_service.py:1160-1224 | which refusal is given, in the order of the checks |
| `RecommendationLaws.ContradictionRefused` | packages/application/src/cnb_application/observability_service.py:1169-1172 | a report that contradicts the recorded decision is refused and changes nothing |
| `RecommendationLaws.FeedbackNeverChanges` | packages/application/src/cnb_application/observability_service.py:1164-1172 | over every session a recorded feedback never changes |
| `RecommendationLaws.SeenIsRecorded` | apps/web/src/views/ObservabilityPage.tsx:312-335 | over every session, whatever the page saw recorded is what the server holds, with that decision and action |
| `RecommendationLaws.DisposalExact` | apps/web/src/views/ObservabilityPage.tsx:294-311 | the page disposes if and only if it accepts an acting recommendation not yet disposed of; what is then in force, and when it goes on |
| `RecommendationLaws.PressFails` | apps/web/src/views/ObservabilityPage.tsx:288-320 | which failure a press ends with, or none |
| `RecommendationLaws.PressSucceeds` | apps/web/src/views/ObservabilityPage.tsx:312-335 | a press that succeeds notes what the server recorded and forgets the alert |
| `RecommendationLaws.AcceptanceGoesThrough` | apps/web/src/views/ObservabilityPage.tsx:288-335 | on an up-to-date list one undisturbed acceptance disposes, is recorded as that action and is noted |
| `RecommendationLaws.RefreshExact` | packages/application/src/cnb_application/observability_service.py:1004-1019 | a fetched list has exactly the active alerts without disposition and feedback, as recommended |
| `RecommendationLaws.DisturbExact` | apps/web/src/views/ObservabilityPage.tsx:121-134 | what others, an ending disposition and a refetch change, one thing each |
| `RecommendationLaws.InOrder` | apps/web/src/views/ObservabilityPage.tsx:555-565 | everything happens in order, and only listed alerts have buttons to press |
| `RecommendationSaga.SessionDisciplined` | apps/web/src/views/ObservabilityPage.tsx:280-335 | over every page lifetime: at most one disposition seen between recorded feedbacks, exactly one before an acceptance that acts, none open at a rejection |
| `RecommendationSaga.UntrueReport` | packages/application/src/cnb_application/observability_service.py:2525-2553 | an accepted press is recorded untruly if and only if, when its report arrives, the server recommends to observe and a disposition is in force |
| `RecommendationSaga.UntrueRecord` | packages/application/src/cnb_application/observability_service.py:2525-2553 | over every page lifetime every accepted record, by whomever, names the action in force or says observing |
| `RecommendationSaga.ReportedAsObserving` | packages/application/src/cnb_application/observability_service.py:1191-1241 | a page lifetime in which an acknowledged alert, still listed, is recorded as observed |
| `RecommendationSaga.NeverReported` | apps/web/src/views/ObservabilityPage.tsx:288-312 | from any state of the page, while nobody else acts on an alert and its recommendation stays, no pressing and refetching gets it reported if and only if it is unreported and has ended, or a disposition in force keeps it off the list, or the page has disposed of it and the recommendation asks for a disposition not in force |
| `RecommendationSaga.HiddenByItsDisposition` | packages/application/src/cnb_application/observability_service.py:1018 | a lost report and the next refetch: the alert the page has acknowledged has no button any more |
| `RecommendationSaga.StuckByStaleList` | apps/web/src/views/ObservabilityPage.tsx:294-320 | a press on a list that is out of date leaves a listed alert that can be neither accepted nor rejected |
| `RecommendationSaga.StuckByExpiry` | packages/application/src/cnb_application/observability_service.py:2548-2553 | a suppression that ends before the lost report is repeated is listed again, and stuck |
| `AgentSelection.TabSelection.Subscribe` | apps/web/src/agentSelection.ts:31-35 | a subscriber makes the tab listen to storage, as the step of the model of all tabs does |
| `AgentSelection.TabSelection.SetSelectedAgentId` | apps/web/src/agentSelection.ts:41-54 | a changed selection is trimmed, kept, stored if storage works, and announced once |
| `AgentSelection.TabSelection.HandleStorage` | apps/web/src/agentSelection.ts:25-29 | a storage event of the key replaces the selection; listeners are told only of a change |
| `AgentSelection.NormalizeExact` | apps/web/src/agentSelection.ts:42 | a selection loses the white space at its ends and nothing else; one of white space alone is none |
| `AgentSelection.StepExact` | apps/web/src/agentSelection.ts:25-54 | what opening, listening, selecting and delivering do to each tab and to the stored value |
| `AgentSelection.AgreeStep` | apps/web/src/agentSelection.ts:25-54 | from agreeing tabs a step keeps them heading for the stored value if and only if it is not a write over waiting events or past a tab that does not listen |
| `AgentSelection.DrainSynchronizes` | apps/web/src/agentSelection.ts:25-29 | draining the event queues leaves every tab with the stored value if and only if the tabs agreed |
| `AgentSelection.SingleWriterConverges` | apps/web/src/agentSelection.ts:25-54 | with one writing tab every run converges in which the other tabs listen whenever it writes, tabs opening in between or not |
| `AgentSelection.QuietWritesConverge` | apps/web/src/agentSelection.ts:25-54 | so does every such run whose writes start with no event in flight |
| `AgentSelection.CrossingWritesDiverge` | apps/web/src/agentSelection.ts:25-54 | two simultaneous writes leave the tabs apart |
| `ConfigurationDraft.ValuesForScope` | apps/web/src/views/ConfigurationPage.tsx:69-80 | the loop overlays the published values of one scope on the defaults |
| `ConfigurationDraft.DraftLaws` | apps/web/src/views/ConfigurationPage.tsx:221-236 | for every target the server takes there is a draft: no slot twice, other scopes kept, every defined key readable with the edited value or default, and its own draft |
| `ConfigurationDraft.DraftBuilt` | apps/web/src/views/ConfigurationPage.tsx:223 | a draft is built if and only if the target is the system or has a non-empty identifier |
| `ConfigurationLaws.PageDrafts` | apps/web/src/views/ConfigurationPage.tsx:57-67 | from its own targets the page always builds the system draft, a tenant, agent or user draft once the identity is known, a channel draft unless the field is blank |
| `ConfigurationLaws.DraftEntries` | apps/web/src/views/ConfigurationPage.tsx:224-235 | the entries of a draft: those of all other targets, and one with the edited or default value for each key the scope may edit |
| `ConfigurationLaws.FiltersInOrder` | apps/web/src/views/ConfigurationPage.tsx:224-226 | the filters keep each entry in place |
| `ConfigurationDraft.OtherScopesUnchanged` | apps/web/src/views/ConfigurationPage.tsx:224-226 | saving a scope leaves every other scope's entries as they were, in order |
| `ConfigurationDraft.SaveDistinct` | apps/web/src/views/ConfigurationPage.tsx:224-235 | saving introduces no duplicate key, scope and id |
| `ConfigurationDraft.SaveAgain` | apps/web/src/views/ConfigurationPage.tsx:224-235 | the later save of a scope wins entirely |
| `ConfigurationDraft.SavesCommute` | apps/web/src/views/ConfigurationPage.tsx:224-235 | saves of two scopes commute in every scope |
| `ConfigurationDraft.ReadBack` | apps/web/src/views/ConfigurationPage.tsx:69-80 | reading a draft gives, for every key, the edited value if the scope may edit it and it is not null, the default of any other defined key, and nothing otherwise |
| `ConfigurationLaws.ReadExact` | apps/web/src/views/ConfigurationPage.tsx:69-80 | a scope shows its value of a key, else the default of a defined key |
| `ConfigurationLaws.ValueExact` | apps/web/src/views/ConfigurationPage.tsx:76-78 | the value of a key in a scope is that of its last entry there |
| `ConfigurationDraft.EditedValueReadBack` | apps/web/src/views/ConfigurationPage.tsx:233 | the edited value itself is read back if and only if it is not a null over another default |
| `ConfigurationDraft.ReopenAndSave` | apps/web/src/views/ConfigurationPage.tsx:69-80 | opening a saved draft and saving it unedited gives the same draft |
| `ConfigurationDraft.UneditedSaveShowsTheSame` | apps/web/src/views/ConfigurationPage.tsx:69-80 | opening any scope of a checked snapshot and saving it unedited leaves what every scope shows as it was |
| `ConfigurationDraft.UneditedSavePins` | packages/application/src/cnb_application/configuration_service.py:278-327 | for every chain of scopes, such a save keeps a key's effective value if and only if the key cannot be edited there, is set there or in a narrower scope, or the broader scopes give the default |
| `ConfigurationDraft.UneditedSaveUndoesLimit` | apps/web/src/views/ConfigurationPage.tsx:221-236 | a checked snapshot in which it does not |
| `ConfigurationLaws.EffectiveExact` | packages/application/src/cnb_application/configuration_service.py:278-316 | the narrowest scope of the chain that sets a key gives its value; if none does it is the default |
| `ConfigurationLaws.EffectiveKeys` | packages/application/src/cnb_application/configuration_service.py:278-282 | exactly the defined public keys have an effective value |
| `ConfigurationDraft.DraftAccepted` | packages/application/src/cnb_application/configuration_registry.py:38-56 | a draft over a checked snapshot passes the entry check if and only if the edited or default value of every editable key is of its kind, within its bounds and options |
| `ConfigurationDraft.ValueAccepted` | packages/application/src/cnb_application/configuration_registry.py:80-108 | a value is accepted if and only if it is of the kind, within minimum and maximum, and one of the options if there are any |
| `ConfigurationLaws.EntryAccepted` | packages/application/src/cnb_application/configuration_registry.py:38-56 | an entry is accepted if and only if its key is defined and public, its scope is allowed, it has an identifier unless it is of the system, and its value fits |
| `ConfigurationLaws.EntryRefused` | packages/application/src/cnb_application/configuration_registry.py:38-108 | why an entry of a defined key is refused: the first check that fails |
| `ConfigurationLaws.UnknownRefused` | packages/application/src/cnb_application/configuration_registry.py:40-43 | an entry of a key that nobody defines is refused as unknown |
| `HeaderParsing.ParseOtlpHeaders` | apps/api/src/cnb_api/telemetry.py:158-167 | the loop computes the specified map, or fails |
| `HeaderParsing.ParseFails` | apps/api/src/cnb_api/telemetry.py:160-165 | parsing fails if and only if some item is neither blank nor a name that is not blank, an equals sign and a value without line breaks |
| `HeaderParsing.ItemExact` | apps/api/src/cnb_api/telemetry.py:163-166 | an item is read at its first equals sign: refused with a blank name or a line break after it, else the stripped name and the stripped value unquoted |
| `HeaderParsing.ItemWithoutValue` | apps/api/src/cnb_api/telemetry.py:163-165 | an item without an equals sign is refused |
| `HeaderParsing.JoinSplit` | apps/api/src/cnb_api/telemetry.py:160 | joining the pieces gives back the header |
| `HeaderLaws.ParsedValue` | apps/api/src/cnb_api/telemetry.py:166 | a name has the value of the last item of that name |
| `HeaderLaws.ParsedNames` | apps/api/src/cnb_api/telemetry.py:166 | the parsed names are exactly those of the items |
| `HeaderParsing.HeaderRoundTrip` | apps/api/src/cnb_api/telemetry.py:158-167 | comma-joined name=percent-encoded-value items parse back to the original headers |
| `HeaderParsing.AsMapExactly` | apps/api/src/cnb_api/telemetry.py:159-167 | for distinct names that map has exactly those names and values |
| `HeaderParsing.UnquoteEncoded` | apps/api/src/cnb_api/telemetry.py:166 | unquoting any percent-encoding (section 2.1 of RFC 3986) of a text gives the text |
| `HeaderLaws.EscapeExact` | apps/api/src/cnb_api/telemetry.py:166 | a percent sign and two hexadecimal digits are one byte, every other character its own |
| `HeaderLaws.HexExact` | apps/api/src/cnb_api/telemetry.py:166 | the value of every hexadecimal digit in either case |
| `HeaderLaws.UnreservedExact` | apps/api/src/cnb_api/telemetry.py:166 | the characters that an encoding may leave as they are (section 2.3 of RFC 3986) |
| `HeaderLaws.UnquotePieces` | apps/api/src/cnb_api/telemetry.py:166 | characters beyond ASCII are kept, the pieces between them decoded on their own |
| `HeaderLaws.UnquoteShortcut` | apps/api/src/cnb_api/telemetry.py:166 | leaving text without a percent sign alone changes nothing |
| `HeaderParsing.SubprotocolRoundTrip` | apps/api/src/cnb_api/dependencies.py:284-292 | the token in the browser's subprotocol list comes back if and only if it is non-empty, trimmed and free of commas |
| `HeaderParsing.AuthorizationRoundTrip` | apps/api/src/cnb_api/dependencies.py:275-283 | a header of scheme, space and token gives the token if and only if the scheme is bearer in any case and the token is non-empty and trimmed |
| `HeaderLaws.AuthorizationExact` | apps/api/src/cnb_api/dependencies.py:275-283 | an Authorization header decides, whatever the subprotocols: the stripped token after the first space if the word before it is bearer in any case and the token is not blank, else refused; without a space refused |
| `HeaderLaws.MarkerExact` | apps/api/src/cnb_api/dependencies.py:284-297 | without the header the subprotocol after the first marker is the token; no marker, or nothing after it, is a missing token |
| `HeaderLaws.ProtocolsExact` | apps/api/src/cnb_api/dependencies.py:284-288 | the subprotocols are the stripped pieces that are not blank, in order |
| `Utf8.DecodeEncode` | apps/api/src/cnb_api/telemetry.py:166 | decoding gives back every encoded text (section 3 of RFC 3629) |
| `Utf8.DecodeExact` | apps/api/src/cnb_api/telemetry.py:166 | whatever starts with a character is decoded as it; everything else is replaced by U+FFFD |
| `Utf8.PieceIsLongest` | apps/api/src/cnb_api/telemetry.py:166 | a replaced piece is the longest start in common with any character |
| `Utf8.PieceStarts` | apps/api/src/cnb_api/telemetry.py:166 | and it does start a character, unless its first byte starts none |
| `RetryLoops.Notify` | packages/adapters/src/cnb_adapters/alert_webhook.py:144-200 | the loop stops at the first decisive outcome or the last allowed attempt, with the verdict of that attempt and at most 5 s of pauses, and succeeds if and only if a success comes before any other decisive outcome; its final assertion is never reached |
| `RetryLoops.VerdictExact` | packages/adapters/src/cnb_adapters/alert_webhook.py:158-198 | what a delivery ends with for each last outcome: 200 to 299 success, other client errors transport, 429 and 500 up only after all attempts, any other status at once |
| `RetryLoops.PausesExact` | packages/adapters/src/cnb_adapters/alert_webhook.py:199 | pauses of 200, 400, 800, 1600 and then 2000 ms, 5000 in all |
| `RetryLoops.ExhaustedCode` | packages/adapters/src/cnb_adapters/alert_webhook.py:189-198 | when retries run out the code is a rejection if and only if the last status ever received was 429 |
| `RetryLoops.RejectedAfterTimeouts` | packages/adapters/src/cnb_adapters/alert_webhook.py:183-198 | one 429 followed by timeouts only is reported as a rejection |
| `RetryLoops.DeliverEmail` | packages/adapters/src/cnb_adapters/notification.py:307-354 | the loop returns, fails or lets an error escape by the first outcome that is not a mail problem; unavailable if and only if every attempt was one |

## Left out

- Markdown passes: each regular expression is any matcher that yields disjoint matches with inner spans; which spans it matches is not modelled (packages/adapters/src/cnb_adapters/channel.py:349-358).
- ChannelAdapter.NegotiateCapabilities: assumes `max_text_chars >= 1`, which the capability contract demands (packages/contracts/src/cnb_contracts/channels.py:35).
- ChannelLaws.AttachmentsKept: assumes that text and Markdown blocks carry no attachment fields, the shape the message-parts table enforces (migrations/versions/20260910_0015_message_parts.py:53-61).
- Lower-casing: `str.lower` is modelled for characters whose lower case is ASCII; the media type inside an error text may differ for others.
- Lone surrogates: strings hold Unicode scalar values only.
- Timestamps: creation and update times are integer keys; the browser compares ISO texts with `localeCompare`, whose order for texts with and without a fraction is not modelled.
- Reducer inputs: a payload field of the wrong JSON type is modelled as absent for every field the code checks; fields it does not check are taken to have their declared type.
- ConversationRepository.Repository.BeginAgentRun: explicit content blocks (used by inbound channels), version fields and membership checks are not modelled, tenants are not distinguished, and random identifiers are assumed new; a conversation has one user, so runs are keyed by the client message id alone.
- Edited messages, regeneration, feedback and deletion in the repository: they would repeat the same event pattern; the SQL repository is not modelled.
- ConversationMirror.SessionMirrors: update times of open and aborted runs are not compared, because the browser does not receive them; with history pages and answers the list is known to be in creation order (`ConversationMirror.SessionListed`), but which messages are missing from it follows message by message.
- ChatRuns.ProtocolRace: the message is not listed before the run starts; lists kept from an earlier selection, and the list an edited branch starts with, count as history pages.
- ChatProtocol.ValidStep: an action that is not possible in a state does nothing; reconnect timers, token transport and page unmounting are not modelled.
- MessageParts.BackfillLegal: random identifiers are an injective stream; tables are lists of rows, indexes and the downgrade are not modelled.
- AgentScope.BackgroundJobs.Upgrade: the joined-row choice of `UPDATE ... FROM` is the first match, which the key constraints make the only one (migrations/versions/20260910_0009_reliable_async_tasks.py:39, migrations/versions/20260910_0009_reliable_async_tasks.py:239); the foreign key and index are not modelled.
- RecommendationSaga.SessionDisciplined: one page lifetime with serial presses, as the disabled buttons enforce (apps/web/src/views/ObservabilityPage.tsx:562); how the server computes a recommendation is not modelled, it may be any action at any time; of a feedback, decision, action and alternative are kept.
- RecommendationSaga.AlertService.SubmitReport: dispositions are kept per alert, so those set through another alert of the same source are acts of others, as are the page's own disposition dialogs and the end of a suppression.
- RecommendationSaga.RecommendationPanel.Refetch: the order of the list is not modelled; filters and limits are a set of hidden alerts.
- AgentSelection.AgreeStep: storage works in every tab and only this key is written; failing storage is modelled for a single tab (`AgentSelection.TabSelection`).
- ConfigurationDraft.DraftAccepted: the screening of webhook addresses and the checks across several entries (packages/application/src/cnb_application/configuration_service.py:340-345) are not modelled; the theorems hold for every snapshot that passes the modelled checks.
- ConfigurationLaws.PageDrafts: identities are taken to be non-empty texts, as the server issues them.
- HeaderParsing.HeaderRoundTrip: values may escape more than they must, but unescaped characters are the unreserved ones.
- RetryLoops.Notify: URL, secret and idempotency-key checks, DNS, JSON and HMAC happen before the loop and are not modelled; elapsed time is not modelled; the effective timeout is a flag saying whether it is positive.
- RetryLoops.DeliverEmail: SMTP settings checks are not modelled.
- Rendering, routing, query caching, HTTP and WebSocket transport, SMTP: foreign or user interface code.
- Task leases, outbox, alert escalation, memory recall and the cognition runtime: outside this model.
- The remaining migrations: plain table creation or one-step updates, which would only add easy members.
