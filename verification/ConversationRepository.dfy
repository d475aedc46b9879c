/** The in-memory conversation repository, proved against the store operations of `ConversationLog`. */
module ConversationRepository {
  import opened Wrappers
  import opened ChatEvents
  import opened ConversationLog
  import opened ConversationLaws

  ghost predicate Listed(s: Store) {
    forall i :: 0 <= i < |s.order| ==> s.order[i] in s.messages
  }

  class Repository {
    var messages: map<string, Message>
    var order: seq<string>
    var runs: map<string, AgentRun>
    var clientRuns: map<string, string>
    var eventSequence: nat
    var events: seq<Event>

    ghost function State(): Store
      reads this
    {
      Store(messages, order, runs, clientRuns, eventSequence, events)
    }

    ghost predicate Valid()
      reads this
    {
      Indexed(State()) && Listed(State()) && forall c :: c in clientRuns ==> clientRuns[c] in runs
    }

    constructor ()
      ensures Valid() && State() == Store(map[], [], map[], map[], 0, [])
    {
      messages, order, runs, clientRuns, eventSequence, events := map[], [], map[], map[], 0, [];
    }

    method AppendEvent(eventType: EventType, at: int, runId: string, payload: Payload)
      modifies `eventSequence, `events
      ensures State() == Emit(old(State()), eventType, at, runId, payload)
    {
      eventSequence := eventSequence + 1;
      events := events + [Event(eventSequence, eventType, at, Some(runId), payload)];
    }

    method StoreMessage(m: Message, at: int, runId: string)
      requires Listed(State())
      modifies `messages, `order, `eventSequence, `events
      ensures Listed(State()) && State() == Create(old(State()), m, at, runId)
    {
      messages := messages[m.head.id := m];
      order := order + [m.head.id];
      AppendEvent(MessageCreated, at, runId, MessagePayload(m));
    }

    method NextTime(clock: int) returns (now: int)
      requires Listed(State())
      ensures now == NextMessageTime(State(), clock)
    {
      if |order| == 0 {
        return clock;
      }
      var latest := messages[order[0]].head.createdAt;
      for i := 1 to |order|
        invariant latest == Latest(State(), i)
      {
        if latest < messages[order[i]].head.createdAt {
          latest := messages[order[i]].head.createdAt;
        }
      }
      now := if clock < latest + 1 then latest + 1 else clock;
    }

    /** The flag says whether the run is new. */
    method BeginAgentRun(d: Draft, clock: int, at: int) returns (r: Result<(AgentRun, bool), RepositoryError>)
      requires Valid() && Fresh(State(), d)
      modifies this
      ensures Valid() && State() == Begin(old(State()), d, clock, at)
      ensures r == if d.clientMessageId in old(clientRuns) then
                     Ok((old(runs)[old(clientRuns)[d.clientMessageId]], false))
                   else if !OwnFiles(d) then Err(Conflict)
                   else Ok((AgentRun(d.runId, d.triggerId, d.responseId, Queued, None), true))
      ensures r.Ok? ==> d.clientMessageId in clientRuns && clientRuns[d.clientMessageId] in runs &&
                        runs[clientRuns[d.clientMessageId]] == r.value.0
    {
      if d.clientMessageId in clientRuns {
        return Ok((runs[clientRuns[d.clientMessageId]], false));
      }
      SendableExactly(d);
      if exists i :: 0 <= i < |d.attachments| && !Belongs(d.attachments[i], d) {
        return Err(Conflict);
      }
      var now := NextTime(clock);
      var trigger, response := Trigger(d, now), Response(d, now);
      var run := AgentRun(d.runId, d.triggerId, d.responseId, Queued, None);
      StoreMessage(trigger, at, d.runId);
      StoreMessage(response, at, d.runId);
      runs := runs[d.runId := run];
      clientRuns := clientRuns[d.clientMessageId := d.runId];
      AppendEvent(RunQueued, at, d.runId, RunPayload(run));
      return Ok((run, true));
    }

    method MarkRunStarted(runId: string, now: int, at: int) returns (r: Result<AgentRun, RepositoryError>)
      requires Valid()
      modifies this
      ensures Valid() && State() == Start(old(State()), runId, now, at)
      ensures r == if runId !in old(runs) then Err(RunNotFound)
                   else if old(runs)[runId].status != Queued then Err(Conflict)
                   else Ok(old(runs)[runId].(status := Running))
    {
      if runId !in runs {
        return Err(RunNotFound);
      }
      var run := runs[runId];
      if run.status != Queued {
        return Err(Conflict);
      }
      run := run.(status := Running);
      var response := WithStatus(messages[run.responseId], Streaming, now);
      runs := runs[run.id := run];
      messages := messages[response.head.id := response];
      AppendEvent(RunStarted, at, runId, RunPayload(run));
      return Ok(run);
    }

    method AppendRunDelta(runId: string, delta: string, now: int, at: int)
      returns (r: Result<Message, RepositoryError>)
      requires Valid()
      modifies this
      ensures Valid() && State() == Delta(old(State()), runId, delta, now, at)
      ensures if runId !in old(runs) then r == Err(RunNotFound)
              else if old(runs)[runId].status != Running then r == Err(Conflict)
              else r.Ok? && r.value == WithDelta(old(messages)[old(runs)[runId].responseId], delta, now) &&
                   r.value.head.content == old(messages)[old(runs)[runId].responseId].head.content + delta
    {
      if runId !in runs {
        return Err(RunNotFound);
      }
      var run := runs[runId];
      if run.status != Running {
        return Err(Conflict);
      }
      var updated := WithDelta(messages[run.responseId], delta, now);
      messages := messages[updated.head.id := updated];
      runs := runs[run.id := run];
      AppendEvent(MessageDelta, at, runId,
                  EmptyPayload.(messageId := Some(updated.head.id), delta := Some(delta),
                                status := Some(updated.head.status)));
      return Ok(updated);
    }

    method CompleteRun(runId: string, suppress: bool, now: int, at: int)
      returns (r: Result<AgentRun, RepositoryError>)
      requires Valid()
      modifies this
      ensures Valid() && State() == Complete(old(State()), runId, suppress, now, at)
      ensures r == if runId !in old(runs) then Err(RunNotFound)
                   else if old(runs)[runId].status != Running then Err(Conflict)
                   else Ok(old(runs)[runId].(status := RunDone))
    {
      if runId !in runs {
        return Err(RunNotFound);
      }
      var run := runs[runId];
      if run.status != Running {
        return Err(Conflict);
      }
      run := run.(status := RunDone);
      var response := WithStatus(messages[run.responseId], if suppress then Suppressed else Completed, now);
      runs := runs[run.id := run];
      messages := messages[response.head.id := response];
      AppendEvent(if suppress then MessageSuppressed else MessageCompleted, at, runId, MessagePayload(response));
      AppendEvent(RunCompleted, at, runId, RunPayload(run));
      return Ok(run);
    }

    method FailRun(runId: string, errorCode: string, now: int, at: int)
      returns (r: Result<AgentRun, RepositoryError>)
      requires Valid()
      modifies this
      ensures Valid() && State() == Fail(old(State()), runId, errorCode, now, at)
      ensures r == if runId !in old(runs) then Err(RunNotFound)
                   else if old(runs)[runId].status == RunAborted then Ok(old(runs)[runId])
                   else Ok(old(runs)[runId].(status := RunBroken, errorCode := Some(errorCode)))
    {
      if runId !in runs {
        return Err(RunNotFound);
      }
      var run := runs[runId];
      if run.status == RunAborted {
        return Ok(run);
      }
      run := run.(status := RunBroken, errorCode := Some(errorCode));
      var response := WithStatus(messages[run.responseId], Failed, now);
      runs := runs[run.id := run];
      messages := messages[response.head.id := response];
      AppendEvent(RunFailed, at, runId, RunPayload(run));
      return Ok(run);
    }

    method CancelRun(runId: string, now: int, at: int) returns (r: Result<AgentRun, RepositoryError>)
      requires Valid()
      modifies this
      ensures Valid() && State() == Cancel(old(State()), runId, now, at)
      ensures r == if runId !in old(runs) then Err(RunNotFound)
                   else if old(runs)[runId].status !in {Queued, Running} then Ok(old(runs)[runId])
                   else Ok(old(runs)[runId].(status := RunAborted))
    {
      if runId !in runs {
        return Err(RunNotFound);
      }
      var run := runs[runId];
      if run.status == RunDone || run.status == RunAborted || run.status == RunBroken {
        return Ok(run);
      }
      run := run.(status := RunAborted);
      var response := WithStatus(messages[run.responseId], Cancelled, now);
      runs := runs[run.id := run];
      messages := messages[response.head.id := response];
      AppendEvent(RunCancelled, at, runId, RunPayload(run));
      return Ok(run);
    }
  }
}
