/**
Every log the repository writes tells a story about each message: its creation, then text, at
most one finished payload, and aborts -- so the race theorems apply to every stored conversation.
*/
module ConversationStory {
  import opened Wrappers
  import opened ChatEvents
  import opened ChatReducerProofs
  import opened ChatRace
  import opened ConversationLog

  /** The message that a log about one message begins with. */
  function Origin(log: seq<Event>): Option<Message> {
    if log != [] && Classify(log[0]).Put? && Classify(log[0]).incoming.parts.Some? then
      Some(WithFallbackPart(Classify(log[0]).incoming))
    else
      None
  }

  ghost predicate Tells(log: seq<Event>, id: string) {
    Origin(log).Some? && Story(log, Origin(log).value) && Origin(log).value.head.id == id &&
    Projected(Origin(log).value)
  }

  predicate Open(status: RunStatus) {
    status == Queued || status == Running
  }

  /** An open run has logged no finished payload yet. */
  ghost predicate Pending(log: seq<Event>, status: RunStatus) {
    Origin(log).Some? && Origin(log).value.head.status == Processing &&
    (Open(status) ==> forall i :: 1 <= i < |log| ==> !Classify(log[i]).Put?)
  }

  ghost predicate StoryAt(events: seq<Event>, ids: set<string>, id: string) {
    if id in ids then Tells(About(events, id), id) else About(events, id) == []
  }

  ghost predicate RunAt(events: seq<Event>, runs: map<string, AgentRun>, r: string) {
    r in runs ==> Pending(About(events, runs[r].responseId), runs[r].status)
  }

  ghost predicate Stories(events: seq<Event>, ids: set<string>, runs: map<string, AgentRun>) {
    (forall id :: StoryAt(events, ids, id)) && (forall r :: RunAt(events, runs, r))
  }

  ghost predicate Storied(s: Store) {
    Stories(s.events, s.messages.Keys, s.runs)
  }

  /** What the store holds mirrors what its log tells. */
  lemma {:induction false} StoredMirrors(s: Store, id: string)
    requires Consistent(s) && id in s.messages
    ensures Told(s.events, id).Some? && Mirrors(s.messages[id], Told(s.events, id).value)
    ensures About(s.events, id) != []
  {
    var shown := Fold([], s.events);
    FoldIsPerMessage([], s.events, id);
    LookupMember(shown, id);
    var i :| 0 <= i < |s.order| && s.order[i] == id;
    assert shown[i] in shown && shown[i].head.id == id && Mirrors(s.messages[s.order[i]], shown[i]);
    ToldAbout(s.events, id);
  }

  lemma StoryGrows(log: seq<Event>, e: Event, id: string)
    requires Tells(log, id) && Origin(log).value.head.status == Processing && Continues(log, e, Origin(log).value)
    ensures Tells(log + [e], id)
  {
    assert (log + [e])[..|log|] == log;
  }

  lemma PendingGrows(log: seq<Event>, e: Event, before: RunStatus, after: RunStatus)
    requires Pending(log, before) && (Open(after) ==> Open(before) && !Classify(e).Put?)
    ensures Pending(log + [e], after)
  {
    forall i | 1 <= i < |log + [e]| && Open(after) ensures !Classify((log + [e])[i]).Put? {
      assert i < |log| ==> (log + [e])[i] == log[i];
    }
  }

  /** What an event may add to the story of a run's response. */
  ghost predicate Adds(events: seq<Event>, e: Event, id: string) {
    && Target(Classify(e)) in {None, Some(id)}
    && (Touches(e, id) ==>
          Origin(About(events, id)).Some? && Continues(About(events, id), e, Origin(About(events, id)).value))
  }

  lemma TellsAfter(events: seq<Event>, e: Event, x: string, id: string)
    requires Tells(About(events, x), x) && Adds(events, e, id)
    requires Origin(About(events, id)).Some? && Origin(About(events, id)).value.head.status == Processing
    ensures Tells(About(events + [e], x), x)
  {
    AboutPush(events, e, x);
    if Touches(e, x) {
      StoryGrows(About(events, x), e, x);
    } else {
      assert About(events, x) + [] == About(events, x);
    }
  }

  lemma PendingAfter(events: seq<Event>, e: Event, x: string, before: RunStatus, after: RunStatus)
    requires Pending(About(events, x), before)
    requires before == after || (Open(after) ==> Open(before))
    requires Touches(e, x) && Open(after) ==> !Classify(e).Put?
    ensures Pending(About(events + [e], x), after)
  {
    AboutPush(events, e, x);
    if Touches(e, x) {
      PendingGrows(About(events, x), e, before, after);
    } else {
      assert About(events, x) + [] == About(events, x);
    }
  }

  lemma NothingAfter(events: seq<Event>, e: Event, x: string)
    requires About(events, x) == [] && !Touches(e, x)
    ensures About(events + [e], x) == []
  {
    AboutPush(events, e, x);
  }

  /** An event about a run's response, or about nothing shown. */
  lemma {:induction false} ResponseEvent(
    events: seq<Event>, ids: set<string>, runs: map<string, AgentRun>, run: AgentRun, e: Event)
    requires Stories(events, ids, runs) && run.id in runs && run.responseId == runs[run.id].responseId
    requires run.responseId in ids && Adds(events, e, run.responseId)
    requires forall r :: r in runs && r != run.id ==> runs[r].responseId != run.responseId
    requires Open(run.status) ==> Open(runs[run.id].status) && !Classify(e).Put?
    ensures Stories(events + [e], ids, runs[run.id := run])
  {
    assert RunAt(events, runs, run.id);
    forall x ensures StoryAt(events + [e], ids, x) {
      assert StoryAt(events, ids, x);
      if x in ids {
        TellsAfter(events, e, x, run.responseId);
      } else {
        NothingAfter(events, e, x);
      }
    }
    var after := runs[run.id := run];
    forall r ensures RunAt(events + [e], after, r) {
      assert RunAt(events, runs, r);
      if r in after {
        PendingAfter(events, e, runs[r].responseId, runs[r].status, after[r].status);
      }
    }
  }

  lemma {:induction false} QuietStoried(events: seq<Event>, ids: set<string>, runs: map<string, AgentRun>, e: Event)
    requires Stories(events, ids, runs) && Classify(e) == NoEffect
    ensures Stories(events + [e], ids, runs)
  {
    forall x ensures StoryAt(events + [e], ids, x) {
      assert StoryAt(events, ids, x);
      OtherStory(events, e, x);
    }
    forall r ensures RunAt(events + [e], runs, r) {
      assert RunAt(events, runs, r);
      if r in runs {
        OtherStory(events, e, runs[r].responseId);
      }
    }
  }

  lemma NewStory(events: seq<Event>, e: Event, m: Message)
    requires About(events, m.head.id) == [] && Projected(m) && Classify(e) == Put(Incoming(m.head, Some(m.parts)))
    ensures About(events + [e], m.head.id) == [e] && Origin([e]) == Some(m) && Tells([e], m.head.id)
  {
    AboutPush(events, e, m.head.id);
  }

  lemma OtherStory(events: seq<Event>, e: Event, x: string)
    requires !Touches(e, x)
    ensures About(events + [e], x) == About(events, x)
  {
    AboutPush(events, e, x);
  }

  lemma {:induction false} CreateStoried(
    events: seq<Event>, ids: set<string>, runs: map<string, AgentRun>, m: Message, e: Event)
    requires Stories(events, ids, runs) && m.head.id !in ids && Projected(m)
    requires Classify(e) == Put(Incoming(m.head, Some(m.parts)))
    requires forall r :: r in runs ==> runs[r].responseId != m.head.id
    ensures Stories(events + [e], ids + {m.head.id}, runs)
    ensures About(events + [e], m.head.id) == [e] && Origin([e]) == Some(m)
  {
    assert StoryAt(events, ids, m.head.id);
    NewStory(events, e, m);
    forall x ensures StoryAt(events + [e], ids + {m.head.id}, x) {
      assert StoryAt(events, ids, x);
      if x != m.head.id {
        OtherStory(events, e, x);
      }
    }
    forall r ensures RunAt(events + [e], runs, r) {
      assert RunAt(events, runs, r);
      if r in runs {
        OtherStory(events, e, runs[r].responseId);
      }
    }
  }

  lemma {:induction false} QueueStoried(
    events: seq<Event>, ids: set<string>, runs: map<string, AgentRun>, run: AgentRun, e: Event)
    requires Stories(events, ids, runs) && About(events, run.responseId) == [e]
    requires Origin([e]).Some? && Origin([e]).value.head.status == Processing
    ensures Stories(events, ids, runs[run.id := run])
  {
    var after := runs[run.id := run];
    forall r ensures RunAt(events, after, r) {
      assert RunAt(events, runs, r);
    }
  }

  lemma NewMessagesProjected(d: Draft, now: int)
    ensures Projected(Trigger(d, now)) && Projected(Response(d, now))
  {
  }

  function Created(m: Message, sequence: nat, at: int, runId: string): Event {
    Event(sequence, MessageCreated, at, Some(runId), MessagePayload(m))
  }

  /** What a new send writes. */
  lemma BeginShape(s: Store, d: Draft, clock: int, at: int)
    requires d.clientMessageId !in s.clientRuns && Sendable(d)
    requires forall i :: 0 <= i < |s.order| ==> s.order[i] in s.messages
    ensures var t, now, n := Begin(s, d, clock, at), NextMessageTime(s, clock), s.eventSequence;
            var run := AgentRun(d.runId, d.triggerId, d.responseId, Queued, None);
            t.events == ((s.events + [Created(Trigger(d, now), n + 1, at, d.runId)]) +
                         [Created(Response(d, now), n + 2, at, d.runId)]) +
                        [Event(n + 3, RunQueued, at, Some(d.runId), RunPayload(run))] &&
            t.messages.Keys == s.messages.Keys + {d.triggerId} + {d.responseId} && t.runs == s.runs[d.runId := run]
  {
  }

  lemma {:induction false} SendStories(
    events: seq<Event>, ids: set<string>, runs: map<string, AgentRun>, trigger: Message, response: Message,
    run: AgentRun, first: Event, second: Event, queued: Event)
    requires Stories(events, ids, runs) && Projected(trigger) && Projected(response)
    requires trigger.head.id !in ids && response.head.id !in ids + {trigger.head.id}
    requires forall r :: r in runs ==> runs[r].responseId in ids
    requires run.responseId == response.head.id && response.head.status == Processing
    requires Classify(first) == Put(Incoming(trigger.head, Some(trigger.parts)))
    requires Classify(second) == Put(Incoming(response.head, Some(response.parts))) && Classify(queued) == NoEffect
    ensures Stories(events + [first] + [second] + [queued], ids + {trigger.head.id} + {response.head.id},
                    runs[run.id := run])
  {
    CreateStoried(events, ids, runs, trigger, first);
    CreateStoried(events + [first], ids + {trigger.head.id}, runs, response, second);
    QueueStoried(events + [first] + [second], ids + {trigger.head.id} + {response.head.id}, runs, run, second);
    QuietStoried(events + [first] + [second], ids + {trigger.head.id} + {response.head.id}, runs[run.id := run],
                 queued);
  }

  lemma {:induction false} BeginStoried(s: Store, d: Draft, clock: int, at: int)
    requires Linked(s) && Storied(s) && Fresh(s, d) && forall i :: 0 <= i < |s.order| ==> s.order[i] in s.messages
    ensures Storied(Begin(s, d, clock, at))
  {
    if d.clientMessageId !in s.clientRuns && Sendable(d) {
      var now, n := NextMessageTime(s, clock), s.eventSequence;
      var run := AgentRun(d.runId, d.triggerId, d.responseId, Queued, None);
      BeginShape(s, d, clock, at);
      NewMessagesProjected(d, now);
      SendStories(s.events, s.messages.Keys, s.runs, Trigger(d, now), Response(d, now), run,
                  Created(Trigger(d, now), n + 1, at, d.runId), Created(Response(d, now), n + 2, at, d.runId),
                  Event(n + 3, RunQueued, at, Some(d.runId), RunPayload(run)));
    }
  }

  /** The shape of `Start`, `Delta`, `Fail` and `Cancel`. */
  ghost predicate Answers(s: Store, t: Store, run: AgentRun, e: Event) {
    t.events == s.events + [e] && t.messages.Keys == s.messages.Keys && t.runs == s.runs[run.id := run] &&
    run.id in s.runs && run.responseId == s.runs[run.id].responseId
  }

  lemma AnswerStoried(s: Store, t: Store, run: AgentRun, e: Event)
    requires Linked(s) && Storied(s) && Answers(s, t, run, e)
    requires Classify(e) == NoEffect || (Classify(e).Extend? && Classify(e).id == run.responseId) ||
             (Classify(e).Mark? && Classify(e).id == run.responseId && Classify(e).status in {Cancelled, Failed})
    requires Open(run.status) ==> Open(s.runs[run.id].status)
    ensures Storied(t)
  {
    assert RunAt(s.events, s.runs, run.id);
    ResponseEvent(s.events, s.messages.Keys, s.runs, run, e);
  }

  lemma StartStoried(s: Store, runId: string, now: int, at: int)
    requires Linked(s) && Storied(s) && Indexed(s)
    ensures Storied(Start(s, runId, now, at))
  {
    if Require(s, runId, {Queued}).Ok? {
      var run := s.runs[runId].(status := Running);
      var e := Event(s.eventSequence + 1, RunStarted, at, Some(runId), RunPayload(run));
      AnswerStoried(s, Start(s, runId, now, at), run, e);
    }
  }

  lemma DeltaStoried(s: Store, runId: string, delta: string, now: int, at: int)
    requires Linked(s) && Storied(s) && Indexed(s)
    ensures Storied(Delta(s, runId, delta, now, at))
  {
    if Require(s, runId, {Running}).Ok? {
      var t := Delta(s, runId, delta, now, at);
      var e := Event(s.eventSequence + 1, MessageDelta, at, Some(runId),
                     EmptyPayload.(messageId := Some(s.runs[runId].responseId), delta := Some(delta),
                                   status := Some(Streaming)));
      assert s.runs[runId := s.runs[runId]] == s.runs;
      AnswerStoried(s, t, s.runs[runId], e);
    }
  }

  lemma FailStoried(s: Store, runId: string, errorCode: string, now: int, at: int)
    requires Linked(s) && Storied(s) && Indexed(s)
    ensures Storied(Fail(s, runId, errorCode, now, at))
  {
    if Require(s, runId, {Queued, Running, RunDone, RunBroken}).Ok? {
      var run := s.runs[runId].(status := RunBroken, errorCode := Some(errorCode));
      var e := Event(s.eventSequence + 1, RunFailed, at, Some(runId), RunPayload(run));
      AnswerStoried(s, Fail(s, runId, errorCode, now, at), run, e);
    }
  }

  lemma CancelStoried(s: Store, runId: string, now: int, at: int)
    requires Linked(s) && Storied(s) && Indexed(s)
    ensures Storied(Cancel(s, runId, now, at))
  {
    if Require(s, runId, {Queued, Running}).Ok? {
      var run := s.runs[runId].(status := RunAborted);
      var e := Event(s.eventSequence + 1, RunCancelled, at, Some(runId), RunPayload(run));
      AnswerStoried(s, Cancel(s, runId, now, at), run, e);
    }
  }

  /** The finished payload carries exactly the text logged so far. */
  lemma {:induction false} PayloadContinues(s: Store, id: string, m: Message, e: Event, status: Status, now: int)
    requires Consistent(s) && Tells(About(s.events, id), id) && id in s.messages && status in {Completed, Suppressed}
    requires m == WithStatus(s.messages[id], status, now) && Classify(e) == Put(Incoming(m.head, Some(m.parts)))
    requires m.head.id == id && Pending(About(s.events, id), Running)
    ensures Adds(s.events, e, id)
  {
    var log := About(s.events, id);
    var created := Origin(log).value;
    StoredMirrors(s, id);
    ToldAbout(s.events, id);
    AboutTouches(s.events, id);
    ToldLooks(log, id, created);
    PictureLooks(s.messages[id], Told(log, id).value, created, Deltas(log));
  }

  lemma FinishStories(
    events: seq<Event>, ids: set<string>, runs: map<string, AgentRun>, run: AgentRun, e: Event, done: Event)
    requires Stories(events, ids, runs) && run.id in runs && run.responseId == runs[run.id].responseId
    requires run.responseId in ids && Adds(events, e, run.responseId) && !Open(run.status)
    requires forall r :: r in runs && r != run.id ==> runs[r].responseId != run.responseId
    requires Classify(done) == NoEffect
    ensures Stories(events + [e] + [done], ids, runs[run.id := run])
  {
    ResponseEvent(events, ids, runs, run, e);
    QuietStoried(events + [e], ids, runs[run.id := run], done);
  }

  /** The event that carries the finished message. */
  function Finish(s: Store, runId: string, suppress: bool, now: int, at: int): Event
    requires Indexed(s) && runId in s.runs
  {
    Event(s.eventSequence + 1, if suppress then MessageSuppressed else MessageCompleted, at, Some(runId),
          MessagePayload(WithStatus(s.messages[s.runs[runId].responseId], if suppress then Suppressed else Completed,
                                    now)))
  }

  lemma {:induction false} CompleteStoried(s: Store, runId: string, suppress: bool, now: int, at: int)
    requires Consistent(s) && Linked(s) && Storied(s) && Indexed(s)
    ensures Storied(Complete(s, runId, suppress, now, at))
  {
    if Require(s, runId, {Running}).Ok? {
      FinishedPayload(s, runId, suppress, now, at);
      CompletedStoried(s, runId, suppress, now, at);
    }
  }

  lemma {:induction false} CompletedStoried(s: Store, runId: string, suppress: bool, now: int, at: int)
    requires Linked(s) && Storied(s) && Indexed(s) && runId in s.runs && s.runs[runId].status == Running
    requires Adds(s.events, Finish(s, runId, suppress, now, at), s.runs[runId].responseId)
    ensures Storied(Complete(s, runId, suppress, now, at))
  {
    var run := s.runs[runId].(status := RunDone);
    FinishStories(s.events, s.messages.Keys, s.runs, run, Finish(s, runId, suppress, now, at),
                  Event(s.eventSequence + 2, RunCompleted, at, Some(runId), RunPayload(run)));
    CompleteShape(s, runId, suppress, now, at);
  }

  lemma RunStory(s: Store, runId: string)
    requires Linked(s) && Storied(s) && runId in s.runs
    ensures Tells(About(s.events, s.runs[runId].responseId), s.runs[runId].responseId)
    ensures Pending(About(s.events, s.runs[runId].responseId), s.runs[runId].status)
  {
    assert RunAt(s.events, s.runs, runId) && StoryAt(s.events, s.messages.Keys, s.runs[runId].responseId);
  }

  lemma FinishedPayload(s: Store, runId: string, suppress: bool, now: int, at: int)
    requires Consistent(s) && Linked(s) && Storied(s) && Indexed(s)
    requires runId in s.runs && s.runs[runId].status == Running
    ensures Adds(s.events, Finish(s, runId, suppress, now, at), s.runs[runId].responseId)
  {
    var id, status := s.runs[runId].responseId, if suppress then Suppressed else Completed;
    RunStory(s, runId);
    FinishClassified(s, runId, suppress, now, at);
    PayloadContinues(s, id, WithStatus(s.messages[id], status, now), Finish(s, runId, suppress, now, at), status, now);
  }

  lemma FinishClassified(s: Store, runId: string, suppress: bool, now: int, at: int)
    requires Indexed(s) && runId in s.runs
    ensures var m := WithStatus(s.messages[s.runs[runId].responseId], if suppress then Suppressed else Completed, now);
            Classify(Finish(s, runId, suppress, now, at)) == Put(Incoming(m.head, Some(m.parts)))
  {
  }

  lemma CompleteShape(s: Store, runId: string, suppress: bool, now: int, at: int)
    requires Linked(s) && Indexed(s) && runId in s.runs && s.runs[runId].status == Running
    ensures var t, run := Complete(s, runId, suppress, now, at), s.runs[runId].(status := RunDone);
            t.events == s.events + [Finish(s, runId, suppress, now, at)] +
                        [Event(s.eventSequence + 2, RunCompleted, at, Some(runId), RunPayload(run))] &&
            t.messages.Keys == s.messages.Keys && t.runs == s.runs[runId := run]
  {
  }
}
