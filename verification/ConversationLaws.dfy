/**
What each repository operation stores and logs, field by field, and what it leaves alone: the
independent statement of the operations of `ConversationLog`.
*/
module ConversationLaws {
  import opened Wrappers
  import opened ChatEvents
  import opened ConversationLog

  // ---------------------------------------------------------------- a send

  /** An uploaded file of this user, conversation and message. */
  ghost predicate OwnFile(a: Attachment, d: Draft) {
    a.ownerId == d.userId && a.conversationId == d.conversationId && a.clientMessageId == d.clientMessageId &&
    a.status in {Ready, Attached}
  }

  ghost predicate OwnFiles(d: Draft) {
    forall i :: 0 <= i < |d.attachments| ==> OwnFile(d.attachments[i], d)
  }

  lemma SendableExactly(d: Draft)
    ensures Sendable(d) <==> OwnFiles(d)
  {
    if OwnFiles(d) {
      forall i | 0 <= i < |d.attachments| ensures Belongs(d.attachments[i], d) {
        assert OwnFile(d.attachments[i], d);
      }
    }
  }

  /** The content block of a message's text. */
  ghost predicate IsTextBlock(p: Part, text: string, at: int) {
    && p.position == 0 && p.kind == MarkdownPart && p.text == Some(text)
    && p.attachmentId == None && p.contentType == None && p.fileName == None && p.sizeBytes == None
    && p.sha256 == None && p.altText == None && p.createdAt == at && p.updatedAt == at
  }

  /** The content block of the n-th file of a message, counting from 1. */
  ghost predicate IsFileBlock(p: Part, a: Attachment, n: int, at: int) {
    && p.id == a.partId && p.position == n
    && p.kind == (if "image/" <= a.contentType then ImagePart else PartKind.FilePart)
    && p.text == None && p.attachmentId == Some(a.id) && p.contentType == Some(a.contentType)
    && p.fileName == Some(a.originalName) && p.sizeBytes == Some(a.sizeBytes) && p.sha256 == Some(a.sha256)
    && p.altText == (if "image/" <= a.contentType then Some(a.originalName) else None)
    && p.createdAt == at && p.updatedAt == at
  }

  /** The stored question: the user's text and, in order, the user's files. */
  ghost predicate IsQuestion(m: Message, d: Draft) {
    && m.head.id == d.triggerId && m.head.conversationId == d.conversationId && m.head.content == d.content
    && m.head.senderType == "user" && m.head.senderId == Some(d.userId) && m.head.status == Received
    && m.head.clientMessageId == Some(d.clientMessageId) && m.head.editedFromId == None
    && m.head.updatedAt == m.head.createdAt
    && |m.parts| == 1 + |d.attachments| && IsTextBlock(m.parts[0], d.content, m.head.createdAt)
    && m.parts[0].id == d.triggerPartId
    && forall i :: 0 <= i < |d.attachments| ==>
         IsFileBlock(m.parts[i + 1], d.attachments[i], i + 1, m.head.createdAt)
  }

  /** The stored answer before the run: an empty message of the agent. */
  ghost predicate IsEmptyAnswer(m: Message, d: Draft) {
    && m.head.id == d.responseId && m.head.conversationId == d.conversationId && m.head.content == ""
    && m.head.senderType == "agent" && m.head.senderId == Some(d.agentId) && m.head.status == Processing
    && m.head.clientMessageId == None && m.head.editedFromId == None && m.head.updatedAt == m.head.createdAt
    && |m.parts| == 1 && IsTextBlock(m.parts[0], "", m.head.createdAt) && m.parts[0].id == d.responsePartId
  }

  lemma QuestionStored(d: Draft, now: int)
    ensures IsQuestion(Trigger(d, now), d) && Trigger(d, now).head.createdAt == now
  {
  }

  lemma AnswerStored(d: Draft, now: int)
    ensures IsEmptyAnswer(Response(d, now), d) && Response(d, now).head.createdAt == now + 1
  {
  }

  /** A new send stores the question and the empty answer, in this order, and nothing else. */
  lemma SendStores(s: Store, d: Draft, clock: int, at: int)
    requires forall i :: 0 <= i < |s.order| ==> s.order[i] in s.messages
    requires d.clientMessageId !in s.clientRuns && OwnFiles(d) && Fresh(s, d)
    ensures var t := Begin(s, d, clock, at);
            && t.messages.Keys == s.messages.Keys + {d.triggerId, d.responseId}
            && t.order == s.order + [d.triggerId, d.responseId]
            && IsQuestion(t.messages[d.triggerId], d) && IsEmptyAnswer(t.messages[d.responseId], d)
            && t.messages[d.triggerId].head.createdAt < t.messages[d.responseId].head.createdAt
            && forall id :: id in s.messages ==> t.messages[id] == s.messages[id]
  {
    SendableExactly(d);
    QuestionStored(d, NextMessageTime(s, clock));
    AnswerStored(d, NextMessageTime(s, clock));
  }

  /** The payload of an event about a run. */
  ghost predicate OfRun(p: Payload, runId: string, responseId: string) {
    p.id == Some(runId) && p.responseMessageId == Some(responseId) && p.messageId == None && p.content == None
  }

  /** A new send queues one run for the answer and logs three events of that run. */
  lemma SendLogs(s: Store, d: Draft, clock: int, at: int)
    requires forall i :: 0 <= i < |s.order| ==> s.order[i] in s.messages
    requires d.clientMessageId !in s.clientRuns && OwnFiles(d)
    ensures var t, n := Begin(s, d, clock, at), |s.events|;
            && t.runs == s.runs[d.runId := AgentRun(d.runId, d.triggerId, d.responseId, Queued, None)]
            && t.clientRuns == s.clientRuns[d.clientMessageId := d.runId]
            && |t.events| == n + 3 && t.events[..n] == s.events && t.eventSequence == s.eventSequence + 3
            && t.events[n].eventType == MessageCreated && t.events[n].payload.id == Some(d.triggerId)
            && t.events[n + 1].eventType == MessageCreated && t.events[n + 1].payload.id == Some(d.responseId)
            && t.events[n + 2].eventType == RunQueued && OfRun(t.events[n + 2].payload, d.runId, d.responseId)
            && forall k :: n <= k < n + 3 ==>
                 t.events[k].sequence == s.eventSequence + 1 + (k - n) && t.events[k].runId == Some(d.runId) &&
                 t.events[k].occurredAt == at
  {
    SendableExactly(d);
  }

  /** A repeated client id, or a file that does not belong to the message, changes nothing. */
  lemma SendIgnored(s: Store, d: Draft, clock: int, at: int)
    requires forall i :: 0 <= i < |s.order| ==> s.order[i] in s.messages
    ensures Begin(s, d, clock, at) == s <==> d.clientMessageId in s.clientRuns || !OwnFiles(d)
  {
    SendableExactly(d);
    if d.clientMessageId !in s.clientRuns && OwnFiles(d) {
      SendLogs(s, d, clock, at);
    }
  }

  lemma {:induction false} LatestIsStored(s: Store, n: nat) returns (i: nat)
    requires 0 < n <= |s.order| && forall i :: 0 <= i < n ==> s.order[i] in s.messages
    ensures i < n && s.messages[s.order[i]].head.createdAt == Latest(s, n)
  {
    i := n - 1;
    if s.messages[s.order[n - 1]].head.createdAt != Latest(s, n) {
      i := LatestIsStored(s, n - 1);
    }
  }

  lemma {:induction false} LatestIsLatest(s: Store, n: nat, i: nat)
    requires 0 < n <= |s.order| && i < n && forall j :: 0 <= j < n ==> s.order[j] in s.messages
    ensures s.messages[s.order[i]].head.createdAt <= Latest(s, n)
  {
    if i < n - 1 {
      LatestIsLatest(s, n - 1, i);
    }
  }

  /** The time of a new message is the clock, or the least time after every stored message. */
  lemma {:induction false} NextTimeExact(s: Store, clock: int)
    requires forall i :: 0 <= i < |s.order| ==> s.order[i] in s.messages
    ensures var now := NextMessageTime(s, clock);
            && now >= clock
            && (forall i :: 0 <= i < |s.order| ==> s.messages[s.order[i]].head.createdAt < now)
            && (now == clock || exists i :: 0 <= i < |s.order| && s.messages[s.order[i]].head.createdAt + 1 == now)
  {
    if s.order != [] {
      var i := LatestIsStored(s, |s.order|);
      forall j | 0 <= j < |s.order|
        ensures s.messages[s.order[j]].head.createdAt < NextMessageTime(s, clock)
      {
        LatestIsLatest(s, |s.order|, j);
      }
    }
  }

  // ---------------------------------------------------------------- the operations on a run

  /** The run and its answer are replaced and events are appended; nothing else changes. */
  ghost predicate Replaced(s: Store, t: Store, run: AgentRun, answer: Message, logged: seq<Event>) {
    && t.messages == s.messages[run.responseId := answer] && t.order == s.order
    && t.runs == s.runs[run.id := run] && t.clientRuns == s.clientRuns
    && t.events == s.events + logged && t.eventSequence == s.eventSequence + |logged|
    && forall k :: 0 <= k < |logged| ==>
         logged[k].sequence == s.eventSequence + 1 + k && logged[k].runId == Some(run.id)
  }

  ghost predicate Named(s: Store, runId: string) {
    runId in s.runs && s.runs[runId].id == runId && s.runs[runId].responseId in s.messages &&
    s.messages[s.runs[runId].responseId].head.id == s.runs[runId].responseId
  }

  /** Only a queued run starts: it is running and its answer streaming. */
  lemma StartStores(s: Store, runId: string, now: int, at: int)
    requires Indexed(s) && (runId in s.runs ==> Named(s, runId))
    ensures var t := Start(s, runId, now, at);
            if runId in s.runs && s.runs[runId].status == Queued then
              |t.events| == |s.events| + 1 &&
              var run, e := s.runs[runId], t.events[|s.events|];
              var before := s.messages[run.responseId];
              Replaced(s, t, run.(status := Running),
                       Message(before.head.(status := Streaming, updatedAt := now), before.parts),
                       [e]) &&
              e.eventType == RunStarted && e.occurredAt == at && OfRun(e.payload, runId, run.responseId)
            else t == s
  {
  }

  /** The parts of a message with text appended to its body blocks. */
  ghost predicate Appended(before: seq<Part>, after: seq<Part>, delta: string, now: int) {
    |after| == |before| &&
    forall i :: 0 <= i < |before| ==>
      after[i] == if before[i].position == 0 && before[i].kind in {TextPart, MarkdownPart} then
                    before[i].(text := Some((if before[i].text.Some? then before[i].text.value else "") + delta),
                               updatedAt := now)
                  else before[i]
  }

  /** Only a running run takes text: content and body blocks grow by it. */
  lemma DeltaStores(s: Store, runId: string, delta: string, now: int, at: int)
    requires Indexed(s) && (runId in s.runs ==> Named(s, runId))
    ensures var t := Delta(s, runId, delta, now, at);
            if runId in s.runs && s.runs[runId].status == Running then
              |t.events| == |s.events| + 1 &&
              var run, e := s.runs[runId], t.events[|s.events|];
              var before, after := s.messages[run.responseId], t.messages[run.responseId];
              Replaced(s, t, run, after, [e]) &&
              after.head ==
              before.head.(content := before.head.content + delta, status := Streaming, updatedAt := now) &&
              Appended(before.parts, after.parts, delta, now) &&
              e.eventType == MessageDelta && e.occurredAt == at &&
              e.payload.messageId == Some(run.responseId) && e.payload.delta == Some(delta) &&
              e.payload.status == Some(Streaming)
            else t == s
  {
    if runId in s.runs && s.runs[runId].status == Running {
      assert s.runs[runId := s.runs[runId]] == s.runs;
    }
  }

  /** Only a running run completes: its answer is completed, or suppressed when so asked. */
  lemma CompleteStores(s: Store, runId: string, suppress: bool, now: int, at: int)
    requires Indexed(s) && (runId in s.runs ==> Named(s, runId))
    ensures var t, n := Complete(s, runId, suppress, now, at), |s.events|;
            if runId in s.runs && s.runs[runId].status == Running then
              var run := s.runs[runId];
              var before := s.messages[run.responseId];
              var status := if suppress then Suppressed else Completed;
              |t.events| == n + 2 &&
              Replaced(s, t, run.(status := RunDone),
                       Message(before.head.(status := status, updatedAt := now), before.parts),
                       [t.events[n], t.events[n + 1]]) &&
              t.events[n].eventType == (if suppress then MessageSuppressed else MessageCompleted) &&
              t.events[n].payload.id == Some(run.responseId) && t.events[n].payload.status == Some(status) &&
              t.events[n + 1].eventType == RunCompleted && OfRun(t.events[n + 1].payload, runId, run.responseId) &&
              t.events[n].occurredAt == t.events[n + 1].occurredAt == at
            else t == s
  {
  }

  /** Every run fails that was not cancelled: its answer is failed and the reason kept. */
  lemma FailStores(s: Store, runId: string, errorCode: string, now: int, at: int)
    requires Indexed(s) && (runId in s.runs ==> Named(s, runId))
    ensures var t := Fail(s, runId, errorCode, now, at);
            if runId in s.runs && s.runs[runId].status != RunAborted then
              |t.events| == |s.events| + 1 &&
              var run, e := s.runs[runId], t.events[|s.events|];
              var before := s.messages[run.responseId];
              Replaced(s, t, run.(status := RunBroken, errorCode := Some(errorCode)),
                       Message(before.head.(status := Failed, updatedAt := now), before.parts), [e]) &&
              e.eventType == RunFailed && e.occurredAt == at && OfRun(e.payload, runId, run.responseId)
            else t == s
  {
  }

  /** Only an open run is cancelled. */
  lemma CancelStores(s: Store, runId: string, now: int, at: int)
    requires Indexed(s) && (runId in s.runs ==> Named(s, runId))
    ensures var t := Cancel(s, runId, now, at);
            if runId in s.runs && s.runs[runId].status in {Queued, Running} then
              |t.events| == |s.events| + 1 &&
              var run, e := s.runs[runId], t.events[|s.events|];
              var before := s.messages[run.responseId];
              Replaced(s, t, run.(status := RunAborted),
                       Message(before.head.(status := Cancelled, updatedAt := now), before.parts), [e]) &&
              e.eventType == RunCancelled && e.occurredAt == at && OfRun(e.payload, runId, run.responseId)
            else t == s
  {
  }
}
