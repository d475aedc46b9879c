/**
The server side of one conversation: stored messages, agent runs and the ordered event log.
Every operation keeps that folding the log with the browser's reducer gives the message table
back, so a browser that has caught up shows what is stored.
*/
module ConversationLog {
  import opened Wrappers
  import opened ChatEvents
  import opened ChatReducerProofs
  import opened ChatRace

  datatype RunStatus = Queued | Running | RunDone | RunAborted | RunBroken

  datatype AgentRun = AgentRun(id: string, triggerId: string, responseId: string, status: RunStatus,
                               errorCode: Option<string>)

  datatype RepositoryError = RunNotFound | Conflict

  datatype Store = Store(
    messages: map<string, Message>, order: seq<string>, runs: map<string, AgentRun>,
    clientRuns: map<string, string>, eventSequence: nat, events: seq<Event>)

  const EmptyPayload := Payload(None, None, None, None, None, None, None, None, None, None, None, None, None, None)

  function MessagePayload(m: Message): Payload {
    EmptyPayload.(
      id := Some(m.head.id), conversationId := Some(m.head.conversationId), senderType := Some(m.head.senderType),
      content := Some(m.head.content), status := Some(m.head.status),
      createdAt := Some(m.head.createdAt), updatedAt := Some(m.head.updatedAt),
      senderId := m.head.senderId, clientMessageId := m.head.clientMessageId,
      editedFromId := m.head.editedFromId, parts := Some(m.parts))
  }

  function RunPayload(run: AgentRun): Payload {
    EmptyPayload.(id := Some(run.id), responseMessageId := Some(run.responseId))
  }

  /** Runs name stored messages, so that they can be read and replaced. */
  ghost predicate Indexed(s: Store) {
    forall r :: r in s.runs ==> s.runs[r].responseId in s.messages
  }

  /** The single text block of a new message. */
  function BodyPart(id: string, content: string, at: int): Part {
    Part(id, 0, MarkdownPart, Some(content), None, None, None, None, None, None, at, at)
  }

  // ---------------------------------------------------------------- what the browser shows

  ghost predicate ListMirrors(s: Store, shown: seq<Message>) {
    && |shown| == |s.order|
    && (forall i :: 0 <= i < |shown| ==>
          shown[i].head.id == s.order[i] && s.order[i] in s.messages && Mirrors(s.messages[s.order[i]], shown[i]))
  }

  ghost predicate Ordered(s: Store) {
    && (forall id :: id in s.messages <==> id in s.order)
    && (forall id :: id in s.messages ==> s.messages[id].head.id == id)
    && (forall i, j :: 0 <= i < j < |s.order| && s.order[i] in s.messages && s.order[j] in s.messages ==>
          s.messages[s.order[i]].head.createdAt < s.messages[s.order[j]].head.createdAt)
  }

  ghost predicate RunFits(run: AgentRun, messages: map<string, Message>) {
    && run.responseId in messages
    && (run.status == Queued ==> messages[run.responseId].head.status == Processing)
    && (run.status == Running ==> messages[run.responseId].head.status == Streaming)
  }

  ghost predicate RunsFit(s: Store) {
    && (forall r :: r in s.runs ==> s.runs[r].id == r && RunFits(s.runs[r], s.messages))
    && (forall r, q :: r in s.runs && q in s.runs && r != q ==> s.runs[r].responseId != s.runs[q].responseId)
    && (forall c :: c in s.clientRuns ==> s.clientRuns[c] in s.runs)
  }

  ghost predicate Sequenced(s: Store) {
    s.eventSequence == |s.events| && forall i :: 0 <= i < |s.events| ==> s.events[i].sequence == i + 1
  }

  /** Replaying the whole log in a fresh browser shows the stored messages, in order. */
  ghost predicate Consistent(s: Store) {
    Sequenced(s) && Ordered(s) && RunsFit(s) && ListMirrors(s, Fold([], s.events))
  }

  lemma {:induction false} SortedIsFixed(messages: seq<Message>)
    requires SortedByCreation(messages)
    ensures StableSort(messages) == messages
  {
    if messages != [] {
      SortedIsFixed(messages[..|messages| - 1]);
    }
  }

  lemma {:induction false} ShownSorted(s: Store, shown: seq<Message>)
    requires Ordered(s) && ListMirrors(s, shown)
    ensures SortedByCreation(shown)
  {
  }

  ghost predicate After(s: Store, at: int) {
    forall id :: id in s.messages ==> s.messages[id].head.createdAt < at
  }

  lemma {:induction false} CreateOrdered(s: Store, t: Store, m: Message)
    requires Ordered(s) && After(s, m.head.createdAt) && m.head.id !in s.messages
    requires t.messages == s.messages[m.head.id := m] && t.order == s.order + [m.head.id]
    ensures Ordered(t)
  {
    forall i, j | 0 <= i < j < |t.order| && t.order[i] in t.messages && t.order[j] in t.messages
      ensures t.messages[t.order[i]].head.createdAt < t.messages[t.order[j]].head.createdAt
    {
      assert t.order[i] == s.order[i] && s.order[i] in s.messages;
      assert j < |s.order| ==> t.order[j] == s.order[j] && s.order[j] in s.messages;
    }
  }

  lemma {:induction false} CreateListed(s: Store, t: Store, shown: seq<Message>, m: Message)
    requires Ordered(s) && ListMirrors(s, shown) && m.head.id !in s.messages
    requires t.messages == s.messages[m.head.id := m] && t.order == s.order + [m.head.id]
    ensures ListMirrors(t, shown + [m])
  {
  }

  lemma NotListed(s: Store, shown: seq<Message>, id: string)
    requires ListMirrors(s, shown) && id !in s.messages
    ensures !HasId(shown, id)
  {
    forall i | 0 <= i < |shown| ensures shown[i].head.id != id {
      assert shown[i].head.id == s.order[i] && s.order[i] in s.messages;
    }
  }

  lemma ShownBefore(s: Store, shown: seq<Message>, at: int)
    requires ListMirrors(s, shown) && After(s, at)
    ensures forall i :: 0 <= i < |shown| ==> shown[i].head.createdAt < at
  {
    forall i | 0 <= i < |shown| ensures shown[i].head.createdAt < at {
      assert s.order[i] in s.messages && Mirrors(s.messages[s.order[i]], shown[i]);
    }
  }

  lemma {:induction false} CreateShown(s: Store, shown: seq<Message>, m: Message, e: Event)
    requires Ordered(s) && ListMirrors(s, shown) && m.head.id !in s.messages && After(s, m.head.createdAt)
    requires Classify(e) == Put(Incoming(m.head, Some(m.parts)))
    ensures Apply(shown, e) == shown + [m]
  {
    NotListed(s, shown, m.head.id);
    ShownSorted(s, shown);
    ShownBefore(s, shown, m.head.createdAt);
    LatestLast(shown, m, e);
  }

  lemma {:induction false} LatestLast(shown: seq<Message>, m: Message, e: Event)
    requires !HasId(shown, m.head.id) && Classify(e) == Put(Incoming(m.head, Some(m.parts)))
    requires SortedByCreation(shown) && forall i :: 0 <= i < |shown| ==> shown[i].head.createdAt < m.head.createdAt
    ensures Apply(shown, e) == shown + [m]
  {
    SortedIsFixed(shown + [m]);
  }

  lemma ChangeOne(before: Message, after: Message, e: Event, stored: Message, shown: Message)
    requires Follows(before, after, e) && Mirrors(stored, shown)
    requires stored.head.id == before.head.id ==> stored == before
    ensures Update(shown, Classify(e)).head.id == shown.head.id
    ensures Mirrors(if stored.head.id == before.head.id then after else stored, Update(shown, Classify(e)))
  {
  }

  lemma {:induction false} ChangeMirrors(
    s: Store, t: Store, shown: seq<Message>, id: string, m: Message, e: Event)
    requires Ordered(s) && ListMirrors(s, shown) && id in s.messages
    requires t.messages == s.messages[id := m] && t.order == s.order
    requires s.messages[id].head.id == id && Follows(s.messages[id], m, e)
    ensures ListMirrors(t, Apply(shown, e))
  {
    var i :| 0 <= i < |s.order| && s.order[i] == id;
    assert shown[i].head.id == id;
    var after := Apply(shown, e);
    assert after == UpdateAll(shown, Classify(e));
    forall j | 0 <= j < |after|
      ensures after[j].head.id == t.order[j] && t.order[j] in t.messages && Mirrors(t.messages[t.order[j]], after[j])
    {
      ChangeOne(s.messages[id], m, e, s.messages[s.order[j]], shown[j]);
    }
  }

  lemma FoldSnoc(events: seq<Event>, e: Event)
    ensures Fold([], events + [e]) == Apply(Fold([], events), e)
  {
  }

  // ---------------------------------------------------------------- operations

  function Emit(s: Store, eventType: EventType, at: int, runId: string, payload: Payload): Store {
    s.(eventSequence := s.eventSequence + 1,
       events := s.events + [Event(s.eventSequence + 1, eventType, at, Some(runId), payload)])
  }

  function Respond(s: Store, run: AgentRun, m: Message): Store {
    s.(messages := s.messages[m.head.id := m], runs := s.runs[run.id := run])
  }

  function WithStatus(m: Message, status: Status, now: int): Message {
    Message(m.head.(status := status, updatedAt := now), m.parts)
  }

  function WithDelta(m: Message, delta: string, now: int): Message {
    Message(m.head.(content := m.head.content + delta, status := Streaming, updatedAt := now),
            ExtendBodies(m.parts, delta, now))
  }

  /** The latest creation time of a non-empty conversation. */
  function Latest(s: Store, n: nat): int
    requires 0 < n <= |s.order| && forall i :: 0 <= i < n ==> s.order[i] in s.messages
  {
    var t := s.messages[s.order[n - 1]].head.createdAt;
    if n == 1 || t >= Latest(s, n - 1) then t else Latest(s, n - 1)
  }

  /** The clock, moved past every stored message. */
  function NextMessageTime(s: Store, clock: int): int
    requires forall i :: 0 <= i < |s.order| ==> s.order[i] in s.messages
  {
    if s.order == [] then clock
    else if clock < Latest(s, |s.order|) + 1 then Latest(s, |s.order|) + 1 else clock
  }

  datatype AttachmentStatus = Pending | Ready | Attached | Rejected | Deleted

  /** An uploaded file; `partId` is the identifier drawn for its content block. */
  datatype Attachment = Attachment(
    id: string, partId: string, ownerId: string, conversationId: string, clientMessageId: string, contentType: string,
    originalName: string, sizeBytes: int, sha256: string, status: AttachmentStatus)

  datatype Draft = Draft(
    clientMessageId: string, content: string, conversationId: string, userId: string, agentId: string,
    triggerId: string, responseId: string, runId: string, triggerPartId: string, responsePartId: string,
    attachments: seq<Attachment>)

  /** The attachment belongs to the message that is being sent and was uploaded. */
  predicate Belongs(a: Attachment, d: Draft) {
    a.ownerId == d.userId && a.conversationId == d.conversationId && a.clientMessageId == d.clientMessageId &&
    (a.status == Ready || a.status == Attached)
  }

  predicate Sendable(d: Draft) {
    forall i :: 0 <= i < |d.attachments| ==> Belongs(d.attachments[i], d)
  }

  function FilePart(a: Attachment, position: int, at: int): Part {
    var image := "image/" <= a.contentType;
    Part(a.partId, position, if image then ImagePart else ChatEvents.FilePart, None, Some(a.id), Some(a.contentType),
         Some(a.originalName), Some(a.sizeBytes), Some(a.sha256), if image then Some(a.originalName) else None, at, at)
  }

  /** The text block of a message, then its files. */
  function NewParts(bodyId: string, content: string, attachments: seq<Attachment>, at: int): seq<Part> {
    [BodyPart(bodyId, content, at)] +
    seq(|attachments|, i requires 0 <= i < |attachments| => FilePart(attachments[i], i + 1, at))
  }

  function Trigger(d: Draft, now: int): Message {
    Message(
      Head(d.triggerId, d.conversationId, "user", Some(d.userId), d.content, Received, Some(d.clientMessageId),
           now, now, None),
      NewParts(d.triggerPartId, d.content, d.attachments, now))
  }

  function Response(d: Draft, now: int): Message {
    Message(
      Head(d.responseId, d.conversationId, "agent", Some(d.agentId), "", Processing, None, now + 1, now + 1, None),
      NewParts(d.responsePartId, "", [], now + 1))
  }

  function Create(s: Store, m: Message, at: int, runId: string): Store {
    Emit(s.(messages := s.messages[m.head.id := m], order := s.order + [m.head.id]),
         MessageCreated, at, runId, MessagePayload(m))
  }

  /** A send: a repeated client id only finds its run again; a foreign attachment is refused. */
  function Begin(s: Store, d: Draft, clock: int, at: int): Store
    requires forall i :: 0 <= i < |s.order| ==> s.order[i] in s.messages
  {
    if d.clientMessageId in s.clientRuns || !Sendable(d) then s else
    var now := NextMessageTime(s, clock);
    var run := AgentRun(d.runId, d.triggerId, d.responseId, Queued, None);
    var stored := Create(Create(s, Trigger(d, now), at, d.runId), Response(d, now), at, d.runId);
    Emit(stored.(runs := stored.runs[d.runId := run], clientRuns := stored.clientRuns[d.clientMessageId := d.runId]),
         RunQueued, at, d.runId, RunPayload(run))
  }

  /** Looks a run up and checks that the operation is allowed in its status. */
  function Require(s: Store, runId: string, allowed: set<RunStatus>): Result<AgentRun, RepositoryError> {
    if runId !in s.runs then Err(RunNotFound)
    else if s.runs[runId].status !in allowed then Err(Conflict)
    else Ok(s.runs[runId])
  }

  function Start(s: Store, runId: string, now: int, at: int): Store
    requires Indexed(s)
  {
    match Require(s, runId, {Queued})
    case Err(_) => s
    case Ok(found) =>
      var run := found.(status := Running);
      Emit(Respond(s, run, WithStatus(s.messages[run.responseId], Streaming, now)),
           RunStarted, at, runId, RunPayload(run))
  }

  function Delta(s: Store, runId: string, delta: string, now: int, at: int): Store
    requires Indexed(s)
  {
    match Require(s, runId, {Running})
    case Err(_) => s
    case Ok(run) =>
      var m := WithDelta(s.messages[run.responseId], delta, now);
      Emit(Respond(s, run, m), MessageDelta, at, runId,
           EmptyPayload.(messageId := Some(m.head.id), delta := Some(delta), status := Some(m.head.status)))
  }

  function Complete(s: Store, runId: string, suppress: bool, now: int, at: int): Store
    requires Indexed(s)
  {
    match Require(s, runId, {Running})
    case Err(_) => s
    case Ok(found) =>
      var run := found.(status := RunDone);
      var m := WithStatus(s.messages[run.responseId], if suppress then Suppressed else Completed, now);
      Emit(Emit(Respond(s, run, m), if suppress then MessageSuppressed else MessageCompleted, at, runId,
                MessagePayload(m)),
           RunCompleted, at, runId, RunPayload(run))
  }

  /** Fails any run that was not cancelled, even one that had completed. */
  function Fail(s: Store, runId: string, errorCode: string, now: int, at: int): Store
    requires Indexed(s)
  {
    match Require(s, runId, {Queued, Running, RunDone, RunBroken})
    case Err(_) => s
    case Ok(found) =>
      var run := found.(status := RunBroken, errorCode := Some(errorCode));
      Emit(Respond(s, run, WithStatus(s.messages[run.responseId], Failed, now)),
           RunFailed, at, runId, RunPayload(run))
  }

  /** Cancels an open run; a closed one is returned as it is. */
  function Cancel(s: Store, runId: string, now: int, at: int): Store
    requires Indexed(s)
  {
    match Require(s, runId, {Queued, Running})
    case Err(_) => s
    case Ok(found) =>
      var run := found.(status := RunAborted);
      Emit(Respond(s, run, WithStatus(s.messages[run.responseId], Cancelled, now)),
           RunCancelled, at, runId, RunPayload(run))
  }

  // ---------------------------------------------------------------- one logged change

  lemma {:induction false} QuietEvent(s: Store, t: Store, e: Event)
    requires Consistent(s) && Classify(e) == NoEffect && e.sequence == s.eventSequence + 1
    requires t == s.(eventSequence := s.eventSequence + 1, events := s.events + [e])
    ensures Consistent(t)
  {
    FoldSnoc(s.events, e);
    assert UpdateAll(Fold([], s.events), NoEffect) == Fold([], s.events);
  }

  lemma {:induction false} CreateConsistent(s: Store, t: Store, m: Message, e: Event)
    requires Consistent(s) && m.head.id !in s.messages && After(s, m.head.createdAt)
    requires Classify(e) == Put(Incoming(m.head, Some(m.parts))) && e.sequence == s.eventSequence + 1
    requires t == s.(messages := s.messages[m.head.id := m], order := s.order + [m.head.id],
                     eventSequence := s.eventSequence + 1, events := s.events + [e])
    ensures Consistent(t)
  {
    assert Fold([], t.events) == Fold([], s.events) + [m] by {
      FoldSnoc(s.events, e);
      CreateShown(s, Fold([], s.events), m, e);
    }
    ChangeSequenced(s, t, e);
    CreateOrdered(s, t, m);
    CreateListed(s, t, Fold([], s.events), m);
    CreateRuns(s, t, m);
  }

  lemma {:induction false} CreateRuns(s: Store, t: Store, m: Message)
    requires RunsFit(s) && m.head.id !in s.messages
    requires t.messages == s.messages[m.head.id := m] && t.runs == s.runs && t.clientRuns == s.clientRuns
    ensures RunsFit(t)
  {
  }

  lemma {:induction false} ChangeOrdered(s: Store, t: Store, m: Message)
    requires Ordered(s) && m.head.id in s.messages
    requires m.head.createdAt == s.messages[m.head.id].head.createdAt
    requires t.messages == s.messages[m.head.id := m] && t.order == s.order
    ensures Ordered(t)
  {
  }

  lemma {:induction false} ChangeRuns(s: Store, t: Store, run: AgentRun, m: Message)
    requires RunsFit(s) && run.id in s.runs && s.runs[run.id].responseId == run.responseId == m.head.id
    requires m.head.id in s.messages && t.messages == s.messages[m.head.id := m]
    requires RunFits(run, t.messages)
    requires t.runs == s.runs[run.id := run] && t.clientRuns == s.clientRuns
    ensures RunsFit(t)
  {
  }

  /** The logged event does to every record of the message what the store did to the message. */
  ghost predicate Follows(before: Message, after: Message, e: Event) {
    && (Target(Classify(e)) == Some(before.head.id) || Target(Classify(e)) == None)
    && forall r: Message :: r.head.id == before.head.id && Mirrors(before, r) ==>
         Mirrors(after, Update(r, Classify(e)))
  }

  lemma {:induction false} ChangeLogged(s: Store, t: Store, m: Message, e: Event)
    requires Ordered(s) && ListMirrors(s, Fold([], s.events))
    requires m.head.id in s.messages && Follows(s.messages[m.head.id], m, e)
    requires t.messages == s.messages[m.head.id := m] && t.order == s.order && t.events == s.events + [e]
    ensures ListMirrors(t, Fold([], t.events))
  {
    FoldSnoc(s.events, e);
    ChangeMirrors(s, t, Fold([], s.events), m.head.id, m, e);
  }

  /** Messages and runs carry their own keys, and every run its own response. */
  ghost predicate Linked(s: Store) {
    && (forall id :: id in s.messages ==> s.messages[id].head.id == id)
    && (forall r :: r in s.runs ==> s.runs[r].id == r && s.runs[r].responseId in s.messages)
    && (forall r, q :: r in s.runs && q in s.runs && r != q ==> s.runs[r].responseId != s.runs[q].responseId)
  }

  lemma ConsistentLinked(s: Store)
    requires Consistent(s)
    ensures Linked(s)
  {
    forall r | r in s.runs ensures s.runs[r].id == r && s.runs[r].responseId in s.messages {
      assert RunFits(s.runs[r], s.messages);
    }
  }

  /** A run and its response message change together, and one event is logged that the message follows. */
  ghost predicate OneStep(s: Store, t: Store, run: AgentRun, m: Message, e: Event) {
    && run.id in s.runs && run.responseId in s.messages && s.runs[run.id].responseId == run.responseId
    && m.head.id == run.responseId && m.head.createdAt == s.messages[run.responseId].head.createdAt
    && RunFits(run, s.messages[run.responseId := m])
    && Follows(s.messages[run.responseId], m, e) && e.sequence == s.eventSequence + 1
    && t == Respond(s, run, m).(eventSequence := s.eventSequence + 1, events := s.events + [e])
  }

  lemma {:induction false} ChangeSequenced(s: Store, t: Store, e: Event)
    requires Sequenced(s) && e.sequence == s.eventSequence + 1
    requires t.events == s.events + [e] && t.eventSequence == s.eventSequence + 1
    ensures Sequenced(t)
  {
  }

  lemma {:induction false} DeltaMirrors(m: Message, shown: Message, e: Event, delta: string, now: int)
    requires Mirrors(m, shown) && Classify(e) == Extend(m.head.id, delta, e.occurredAt)
    ensures Mirrors(WithDelta(m, delta, now), Update(shown, Classify(e)))
  {
  }

  lemma {:induction false} NewRunFits(s: Store, t: Store, run: AgentRun, client: string)
    requires RunsFit(s) && run.id !in s.runs && RunFits(run, s.messages)
    requires forall r :: r in s.runs ==> s.runs[r].responseId != run.responseId
    requires t == s.(runs := s.runs[run.id := run], clientRuns := s.clientRuns[client := run.id])
    ensures RunsFit(t)
  {
  }

  lemma {:induction false} NewRun(s: Store, t: Store, run: AgentRun, client: string)
    requires Consistent(s) && run.id !in s.runs && RunFits(run, s.messages)
    requires forall r :: r in s.runs ==> s.runs[r].responseId != run.responseId
    requires t == s.(runs := s.runs[run.id := run], clientRuns := s.clientRuns[client := run.id])
    ensures Consistent(t)
  {
    assert Sequenced(t) && Ordered(t) && ListMirrors(t, Fold([], t.events));
    NewRunFits(s, t, run, client);
  }

  lemma StartFollows(m: Message, e: Event, now: int)
    requires m.head.status == Processing && Classify(e) == NoEffect
    ensures Follows(m, WithStatus(m, Streaming, now), e)
  {
  }

  lemma DeltaFollows(m: Message, e: Event, delta: string, now: int)
    requires Classify(e) == Extend(m.head.id, delta, e.occurredAt)
    ensures Follows(m, WithDelta(m, delta, now), e)
  {
    forall r: Message | r.head.id == m.head.id && Mirrors(m, r)
      ensures Mirrors(WithDelta(m, delta, now), Update(r, Classify(e)))
    {
      DeltaMirrors(m, r, e, delta, now);
    }
  }

  lemma FinishFollows(m: Message, after: Message, e: Event)
    requires after.head.id == m.head.id && after.head.status in {Completed, Suppressed}
    requires Classify(e) == Put(Incoming(after.head, Some(after.parts)))
    ensures Follows(m, after, e)
  {
  }

  lemma AbortFollows(m: Message, e: Event, status: Status, now: int)
    requires status in {Cancelled, Failed} && Classify(e) == Mark(m.head.id, status)
    ensures Follows(m, WithStatus(m, status, now), e)
  {
  }

  // ---------------------------------------------------------------- every operation keeps the mirror

  /** The shape of `Start`, `Delta`, `Fail` and `Cancel`: one response message, one event. */
  lemma {:induction false} OneChange(s: Store, t: Store, run: AgentRun, m: Message, e: Event)
    requires Consistent(s) && OneStep(s, t, run, m, e)
    ensures Consistent(t)
  {
    assert s.messages[run.responseId].head.id == run.responseId;
    ChangeSequenced(s, t, e);
    ChangeLogged(s, t, m, e);
    ChangeOrdered(s, t, m);
    ChangeRuns(s, t, run, m);
  }

  lemma StartStep(s: Store, runId: string, now: int, at: int)
    requires Linked(s) && Indexed(s) && runId in s.runs && s.runs[runId].status == Queued
    requires s.messages[s.runs[runId].responseId].head.status == Processing
    ensures var run := s.runs[runId].(status := Running);
            OneStep(s, Start(s, runId, now, at), run, WithStatus(s.messages[run.responseId], Streaming, now),
                    Event(s.eventSequence + 1, RunStarted, at, Some(runId), RunPayload(run)))
  {
    var run := s.runs[runId].(status := Running);
    var e := Event(s.eventSequence + 1, RunStarted, at, Some(runId), RunPayload(run));
    StartFollows(s.messages[run.responseId], e, now);
  }

  lemma {:induction false} StartConsistent(s: Store, runId: string, now: int, at: int)
    requires Consistent(s) && Indexed(s)
    ensures Consistent(Start(s, runId, now, at))
  {
    if Require(s, runId, {Queued}).Ok? {
      var run := s.runs[runId].(status := Running);
      var e := Event(s.eventSequence + 1, RunStarted, at, Some(runId), RunPayload(run));
      ConsistentLinked(s);
      assert RunFits(s.runs[runId], s.messages);
      StartStep(s, runId, now, at);
      OneChange(s, Start(s, runId, now, at), run, WithStatus(s.messages[run.responseId], Streaming, now), e);
    }
  }

  function DeltaEvent(s: Store, runId: string, delta: string, at: int): Event
    requires Indexed(s) && runId in s.runs
  {
    Event(s.eventSequence + 1, MessageDelta, at, Some(runId),
          EmptyPayload.(messageId := Some(s.messages[s.runs[runId].responseId].head.id), delta := Some(delta),
                        status := Some(Streaming)))
  }

  lemma DeltaStep(s: Store, runId: string, delta: string, now: int, at: int)
    requires Linked(s) && Indexed(s) && runId in s.runs && s.runs[runId].status == Running
    ensures OneStep(s, Delta(s, runId, delta, now, at), s.runs[runId],
                    WithDelta(s.messages[s.runs[runId].responseId], delta, now), DeltaEvent(s, runId, delta, at))
  {
    DeltaFollows(s.messages[s.runs[runId].responseId], DeltaEvent(s, runId, delta, at), delta, now);
  }

  lemma {:induction false} DeltaConsistent(s: Store, runId: string, delta: string, now: int, at: int)
    requires Consistent(s) && Indexed(s)
    ensures Consistent(Delta(s, runId, delta, now, at))
  {
    if Require(s, runId, {Running}).Ok? {
      ConsistentLinked(s);
      DeltaStep(s, runId, delta, now, at);
      OneChange(s, Delta(s, runId, delta, now, at), s.runs[runId],
                WithDelta(s.messages[s.runs[runId].responseId], delta, now), DeltaEvent(s, runId, delta, at));
    }
  }

  lemma FinishStep(s: Store, run: AgentRun, m: Message, t: EventType, at: int)
    requires Linked(s) && run.id in s.runs && run.responseId in s.messages && run.status == RunDone
    requires s.runs[run.id].responseId == run.responseId == m.head.id
    requires m.head.createdAt == s.messages[run.responseId].head.createdAt
    requires m.head.status in {Completed, Suppressed} && t in {MessageCompleted, MessageSuppressed}
    ensures OneStep(s, Emit(Respond(s, run, m), t, at, run.id, MessagePayload(m)), run, m,
                    Event(s.eventSequence + 1, t, at, Some(run.id), MessagePayload(m)))
  {
    var e := Event(s.eventSequence + 1, t, at, Some(run.id), MessagePayload(m));
    assert Classify(e) == Put(Incoming(m.head, Some(m.parts)));
    FinishFollows(s.messages[run.responseId], m, e);
  }

  lemma {:induction false} FinishConsistent(s: Store, run: AgentRun, m: Message, t: EventType, at: int)
    requires Consistent(s) && run.id in s.runs && run.responseId in s.messages && run.status == RunDone
    requires s.runs[run.id].responseId == run.responseId == m.head.id
    requires m.head.createdAt == s.messages[run.responseId].head.createdAt
    requires m.head.status in {Completed, Suppressed} && t in {MessageCompleted, MessageSuppressed}
    ensures Consistent(Emit(Respond(s, run, m), t, at, run.id, MessagePayload(m)))
  {
    ConsistentLinked(s);
    FinishStep(s, run, m, t, at);
    OneChange(s, Emit(Respond(s, run, m), t, at, run.id, MessagePayload(m)), run, m,
              Event(s.eventSequence + 1, t, at, Some(run.id), MessagePayload(m)));
  }

  lemma {:induction false} CompleteConsistent(s: Store, runId: string, suppress: bool, now: int, at: int)
    requires Consistent(s) && Indexed(s)
    ensures Consistent(Complete(s, runId, suppress, now, at))
  {
    if Require(s, runId, {Running}).Ok? {
      var run := s.runs[runId].(status := RunDone);
      var m := WithStatus(s.messages[run.responseId], if suppress then Suppressed else Completed, now);
      var eventType := if suppress then MessageSuppressed else MessageCompleted;
      var mid := Emit(Respond(s, run, m), eventType, at, runId, MessagePayload(m));
      assert Consistent(mid) by {
        ConsistentLinked(s);
        FinishConsistent(s, run, m, eventType, at);
      }
      CompletedIs(s, runId, suppress, now, at, mid);
      QuietRunEvent(mid, RunCompleted, run, at);
    }
  }

  lemma CompletedIs(s: Store, runId: string, suppress: bool, now: int, at: int, mid: Store)
    requires Indexed(s) && runId in s.runs && s.runs[runId].status == Running && s.runs[runId].id == runId
    requires var m := WithStatus(s.messages[s.runs[runId].responseId], if suppress then Suppressed else Completed, now);
             mid == Emit(Respond(s, s.runs[runId].(status := RunDone), m),
                         if suppress then MessageSuppressed else MessageCompleted, at, runId, MessagePayload(m))
    ensures var run := s.runs[runId].(status := RunDone);
            Complete(s, runId, suppress, now, at) == Emit(mid, RunCompleted, at, run.id, RunPayload(run))
  {
  }

  lemma {:induction false} QuietRunEvent(s: Store, eventType: EventType, run: AgentRun, at: int)
    requires Consistent(s) && eventType in {RunQueued, RunCompleted}
    ensures Consistent(Emit(s, eventType, at, run.id, RunPayload(run)))
  {
    var t := Emit(s, eventType, at, run.id, RunPayload(run));
    QuietEvent(s, t, t.events[|t.events| - 1]);
  }

  lemma AbortStep(s: Store, t: Store, run: AgentRun, e: Event, status: Status, now: int)
    requires Linked(s) && run.id in s.runs && run.responseId == s.runs[run.id].responseId
    requires run.status in {RunBroken, RunAborted} && status in {Cancelled, Failed}
    requires Classify(e) == Mark(run.responseId, status) && e.sequence == s.eventSequence + 1
    requires t == Respond(s, run, WithStatus(s.messages[run.responseId], status, now))
                    .(eventSequence := s.eventSequence + 1, events := s.events + [e])
    ensures OneStep(s, t, run, WithStatus(s.messages[run.responseId], status, now), e)
  {
    AbortFollows(s.messages[run.responseId], e, status, now);
  }

  lemma {:induction false} FailStep(s: Store, runId: string, errorCode: string, now: int, at: int)
    requires Linked(s) && Indexed(s) && runId in s.runs && s.runs[runId].status != RunAborted
    ensures var run := s.runs[runId].(status := RunBroken, errorCode := Some(errorCode));
            OneStep(s, Fail(s, runId, errorCode, now, at), run, WithStatus(s.messages[run.responseId], Failed, now),
                    Event(s.eventSequence + 1, RunFailed, at, Some(runId), RunPayload(run)))
  {
    var run := s.runs[runId].(status := RunBroken, errorCode := Some(errorCode));
    AbortStep(s, Fail(s, runId, errorCode, now, at), run,
              Event(s.eventSequence + 1, RunFailed, at, Some(runId), RunPayload(run)), Failed, now);
  }

  lemma {:induction false} CancelStep(s: Store, runId: string, now: int, at: int)
    requires Linked(s) && Indexed(s) && runId in s.runs && s.runs[runId].status in {Queued, Running}
    ensures var run := s.runs[runId].(status := RunAborted);
            OneStep(s, Cancel(s, runId, now, at), run, WithStatus(s.messages[run.responseId], Cancelled, now),
                    Event(s.eventSequence + 1, RunCancelled, at, Some(runId), RunPayload(run)))
  {
    var run := s.runs[runId].(status := RunAborted);
    AbortStep(s, Cancel(s, runId, now, at), run,
              Event(s.eventSequence + 1, RunCancelled, at, Some(runId), RunPayload(run)), Cancelled, now);
  }

  lemma {:induction false} FailConsistent(s: Store, runId: string, errorCode: string, now: int, at: int)
    requires Consistent(s) && Indexed(s)
    ensures Consistent(Fail(s, runId, errorCode, now, at))
  {
    if Require(s, runId, {Queued, Running, RunDone, RunBroken}).Ok? {
      var run := s.runs[runId].(status := RunBroken, errorCode := Some(errorCode));
      var e := Event(s.eventSequence + 1, RunFailed, at, Some(runId), RunPayload(run));
      ConsistentLinked(s);
      FailStep(s, runId, errorCode, now, at);
      OneChange(s, Fail(s, runId, errorCode, now, at), run, WithStatus(s.messages[run.responseId], Failed, now), e);
    }
  }

  lemma {:induction false} CancelConsistent(s: Store, runId: string, now: int, at: int)
    requires Consistent(s) && Indexed(s)
    ensures Consistent(Cancel(s, runId, now, at))
  {
    if Require(s, runId, {Queued, Running}).Ok? {
      var run := s.runs[runId].(status := RunAborted);
      var e := Event(s.eventSequence + 1, RunCancelled, at, Some(runId), RunPayload(run));
      ConsistentLinked(s);
      CancelStep(s, runId, now, at);
      OneChange(s, Cancel(s, runId, now, at), run, WithStatus(s.messages[run.responseId], Cancelled, now), e);
    }
  }

  /** New messages are stored strictly after every stored one, even when the clock goes back. */
  lemma {:induction false} NextMessageTimeAfter(s: Store, clock: int)
    requires Ordered(s) && forall i :: 0 <= i < |s.order| ==> s.order[i] in s.messages
    ensures After(s, NextMessageTime(s, clock)) && NextMessageTime(s, clock) >= clock
  {
  }

  /** Identifiers are drawn at random: a draft's are new and distinct. */
  ghost predicate Fresh(s: Store, d: Draft) {
    d.triggerId !in s.messages && d.responseId !in s.messages && d.triggerId != d.responseId && d.runId !in s.runs
  }

  lemma {:induction false} CreateStep(s: Store, m: Message, at: int, runId: string)
    requires Consistent(s) && m.head.id !in s.messages && After(s, m.head.createdAt)
    ensures Consistent(Create(s, m, at, runId))
  {
    var t := Create(s, m, at, runId);
    CreateConsistent(s, t, m, t.events[|t.events| - 1]);
  }

  lemma {:induction false} NewResponse(s: Store, t: Store, run: AgentRun)
    requires RunsFit(s) && s.runs == t.runs && run.responseId !in s.messages
    ensures forall r :: r in t.runs ==> t.runs[r].responseId != run.responseId
  {
  }

  lemma {:induction false} BothStored(s: Store, d: Draft, now: int, at: int)
    requires Consistent(s) && Fresh(s, d) && After(s, now)
    ensures Consistent(Create(Create(s, Trigger(d, now), at, d.runId), Response(d, now), at, d.runId))
  {
    CreateStep(s, Trigger(d, now), at, d.runId);
    CreateStep(Create(s, Trigger(d, now), at, d.runId), Response(d, now), at, d.runId);
  }

  lemma {:induction false} BeginConsistent(s: Store, d: Draft, clock: int, at: int)
    requires Consistent(s) && Fresh(s, d) && forall i :: 0 <= i < |s.order| ==> s.order[i] in s.messages
    ensures Consistent(Begin(s, d, clock, at))
  {
    if d.clientMessageId !in s.clientRuns && Sendable(d) {
      var now := NextMessageTime(s, clock);
      NextMessageTimeAfter(s, clock);
      BothStored(s, d, now, at);
      var stored := Create(Create(s, Trigger(d, now), at, d.runId), Response(d, now), at, d.runId);
      var run := AgentRun(d.runId, d.triggerId, d.responseId, Queued, None);
      NewResponse(s, stored, run);
      var queued := stored.(runs := stored.runs[d.runId := run],
                            clientRuns := stored.clientRuns[d.clientMessageId := d.runId]);
      NewRun(stored, queued, run, d.clientMessageId);
      QuietRunEvent(queued, RunQueued, run, at);
    }
  }
}
