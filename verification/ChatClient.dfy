/**
The chat page's connection to one conversation: the page state and the callbacks that reassign
it.  `ChatPage` is proved against the pure `Client` state used by the protocol proofs.
*/
module ChatClient {
  import opened Wrappers
  import opened ChatEvents
  import opened ChatReducerProofs

  datatype Frame = EventFrame(event: Event) | HeartbeatFrame(lastSequence: nat)

  /** What the page remembers about the selected conversation. */
  datatype Client = Client(lastSequence: nat, messages: seq<Message>, activeRunId: Option<string>)

  const MAX_SAFE_INTEGER: nat := 0x1F_FFFF_FFFF_FFFF

  function RunSignal(active: Option<string>, e: Event): Option<string> {
    match e.eventType
    case RunQueued | RunStarted => if e.runId.Some? && e.runId.value != "" then e.runId else active
    case RunCompleted | RunCancelled | RunFailed => None
    case _ => active
  }

  function Take(c: Client, e: Event): Client {
    Client(e.sequence, Apply(c.messages, e), RunSignal(c.activeRunId, e))
  }

  function Receive(c: Client, frame: Frame): Client {
    match frame
    case HeartbeatFrame(_) => c
    case EventFrame(e) => if e.sequence <= c.lastSequence then c else Take(c, e)
  }

  /** A message of an HTTP response, wrapped as a creation event that is never compared by sequence. */
  function AcceptEvent(m: Message, runId: string, sequence: nat): (e: Event)
    ensures Classify(e) == Put(Incoming(m.head, Some(m.parts)))
  {
    Event(sequence, MessageCreated, m.head.createdAt, Some(runId),
          Payload(Some(m.head.id), Some(m.head.conversationId), Some(m.head.senderType), Some(m.head.content),
                  Some(m.head.status), Some(m.head.createdAt), Some(m.head.updatedAt),
                  m.head.senderId, m.head.clientMessageId, m.head.editedFromId, Some(m.parts), None, None, None))
  }

  function AcceptRun(c: Client, user: Message, response: Message, runId: string): Client {
    var first := Apply(c.messages, AcceptEvent(user, runId, MAX_SAFE_INTEGER - 1));
    Client(c.lastSequence, Apply(first, AcceptEvent(response, runId, MAX_SAFE_INTEGER)), Some(runId))
  }

  // ---------------------------------------------------------------- the log after a sequence

  /** How many logged events have a sequence up to `s`. */
  function Covered(log: seq<Event>, s: nat): nat {
    if log == [] then 0
    else if log[|log| - 1].sequence <= s then |log|
    else Covered(log[..|log| - 1], s)
  }

  ghost predicate Increasing(log: seq<Event>) {
    (forall i :: 0 <= i < |log| ==> log[i].sequence > 0) &&
    (forall i, j :: 0 <= i < j < |log| ==> log[i].sequence < log[j].sequence)
  }

  lemma {:induction false} CoveredCount(log: seq<Event>, s: nat)
    requires Increasing(log)
    ensures Covered(log, s) <= |log|
    ensures forall i :: 0 <= i < |log| ==> (log[i].sequence <= s <==> i < Covered(log, s))
  {
    if log != [] && log[|log| - 1].sequence > s {
      CoveredCount(log[..|log| - 1], s);
    }
  }

  lemma {:induction false} CoveredUnique(log: seq<Event>, s: nat, n: nat)
    requires Increasing(log) && n <= |log|
    requires forall i :: 0 <= i < |log| ==> (log[i].sequence <= s <==> i < n)
    ensures Covered(log, s) == n
  {
    if log != [] && log[|log| - 1].sequence > s {
      CoveredUnique(log[..|log| - 1], s, n);
    }
  }

  /** What the server lists after a sequence: the later events of the log. */
  function EventsAfter(log: seq<Event>, sequence: nat): seq<Event> {
    if log == [] then []
    else if log[|log| - 1].sequence > sequence then EventsAfter(log[..|log| - 1], sequence) + [log[|log| - 1]]
    else EventsAfter(log[..|log| - 1], sequence)
  }

  lemma {:induction false} NoneAfter(log: seq<Event>, sequence: nat)
    requires forall i :: 0 <= i < |log| ==> log[i].sequence <= sequence
    ensures EventsAfter(log, sequence) == []
  {
    if log != [] {
      NoneAfter(log[..|log| - 1], sequence);
    }
  }

  lemma EventsAfterPush(front: seq<Event>, last: Event, sequence: nat, n: nat)
    requires n <= |front| && EventsAfter(front, sequence) == front[n..] && last.sequence > sequence
    ensures EventsAfter(front + [last], sequence) == (front + [last])[n..]
  {
    assert (front + [last])[..|front|] == front;
    assert (front + [last])[n..] == front[n..] + [last];
  }

  lemma {:induction false} EventsAfterCovered(log: seq<Event>, sequence: nat)
    requires Increasing(log)
    ensures Covered(log, sequence) <= |log| && EventsAfter(log, sequence) == log[Covered(log, sequence)..]
  {
    if log != [] {
      var front, last := log[..|log| - 1], log[|log| - 1];
      if last.sequence > sequence {
        assert log == front + [last];
        EventsAfterCovered(front, sequence);
        EventsAfterPush(front, last, sequence, Covered(front, sequence));
      } else {
        NoneAfter(log, sequence);
      }
    }
  }

  // ---------------------------------------------------------------- the page

  class ChatPage {
    var lastSequence: nat
    var messages: seq<Message>
    var activeRunId: Option<string>

    ghost function State(): Client
      reads this
    {
      Client(lastSequence, messages, activeRunId)
    }

    constructor ()
      ensures State() == Client(0, [], None)
    {
      lastSequence, messages, activeRunId := 0, [], None;
    }

    /** The socket effect of a newly selected conversation restarts the sequence only. */
    method Select()
      modifies this`lastSequence
      ensures State() == old(State()).(lastSequence := 0)
    {
      lastSequence := 0;
    }

    /** A (re)connection asks for the log after the last sequence seen: what lies beyond it, all of it, once. */
    method Connect(ghost log: seq<Event>) returns (after: nat)
      requires Increasing(log)
      ensures Covered(log, lastSequence) <= |log| && EventsAfter(log, after) == log[Covered(log, lastSequence)..]
    {
      after := lastSequence;
      EventsAfterCovered(log, lastSequence);
    }

    method OnMessage(frame: Frame)
      modifies this
      ensures State() == Receive(old(State()), frame)
      ensures lastSequence >= old(lastSequence)
      ensures frame.HeartbeatFrame? || frame.event.sequence <= old(lastSequence) ==> State() == old(State())
      ensures frame.EventFrame? && frame.event.sequence > old(lastSequence) ==>
                lastSequence == frame.event.sequence && messages == Apply(old(messages), frame.event) &&
                activeRunId ==
                if frame.event.eventType in {RunCompleted, RunCancelled, RunFailed} then None
                else if frame.event.eventType in {RunQueued, RunStarted} && frame.event.runId.Some? &&
                        frame.event.runId.value != "" then frame.event.runId
                else old(activeRunId)
    {
      match frame
      case HeartbeatFrame(_) => return;
      case EventFrame(e) =>
        if e.sequence <= lastSequence {
          return;
        }
        lastSequence := e.sequence;
        messages := Apply(messages, e);
        if (e.eventType == RunQueued || e.eventType == RunStarted) && e.runId.Some? && e.runId.value != "" {
          activeRunId := e.runId;
        }
        if e.eventType == RunCompleted || e.eventType == RunCancelled || e.eventType == RunFailed {
          activeRunId := None;
        }
    }

    /** A loaded history page replaces the list; the sequence is left where it is. */
    method OnHistory(items: Option<seq<Message>>)
      modifies this`messages
      ensures State() == old(State()).(messages := if items.Some? then items.value else [])
    {
      messages := if items.Some? then items.value else [];
    }

    method OnAccepted(user: Message, response: Message, runId: string)
      modifies this
      ensures State() == AcceptRun(old(State()), user, response, runId)
      ensures lastSequence == old(lastSequence)
      ensures UniqueIds(old(messages)) ==> HasId(messages, user.head.id) && HasId(messages, response.head.id)
    {
      ghost var first, second :=
        AcceptEvent(user, runId, MAX_SAFE_INTEGER - 1), AcceptEvent(response, runId, MAX_SAFE_INTEGER);
      messages := Apply(messages, AcceptEvent(user, runId, MAX_SAFE_INTEGER - 1));
      messages := Apply(messages, AcceptEvent(response, runId, MAX_SAFE_INTEGER));
      activeRunId := Some(runId);
      if UniqueIds(old(messages)) {
        AcceptShows(old(messages), first, second, user.head.id);
        AcceptShows(old(messages), first, second, response.head.id);
      }
    }
  }

  lemma {:induction false} AcceptShows(messages: seq<Message>, first: Event, second: Event, id: string)
    requires UniqueIds(messages) && Classify(first).Put? && Classify(second).Put?
    requires Touches(first, id) || Touches(second, id)
    ensures HasId(Apply(Apply(messages, first), second), id)
  {
    var events := [first, second];
    assert events[..1] == [first];
    assert Fold(messages, [first]) == Apply(messages, first);
    assert Fold(messages, events) == Apply(Apply(messages, first), second);
    assert Creates(events, id) by {
      assert Touches(events[0], id) || Touches(events[1], id);
    }
    IdsExactly(messages, events, id);
  }

  lemma CreatedAtPush(messages: seq<Message>, m: Message, at: int)
    ensures CreatedAt(messages + [m], at) == CreatedAt(messages, at) + if m.head.createdAt == at then [m] else []
  {
    assert (messages + [m])[..|messages|] == messages;
  }

  /**
  An accept response of two new messages adds exactly them, the question before the answer among
  messages of the same time, and leaves the list in creation order.
  */
  lemma {:induction false} AcceptedList(c: Client, user: Message, response: Message, runId: string, at: int)
    requires !HasId(c.messages, user.head.id) && !HasId(c.messages, response.head.id)
    requires user.head.id != response.head.id
    ensures var after := AcceptRun(c, user, response, runId);
            && SortedByCreation(after.messages) && after.activeRunId == Some(runId)
            && after.lastSequence == c.lastSequence
            && CreatedAt(after.messages, at) ==
               CreatedAt(c.messages, at) + (if user.head.createdAt == at then [user] else []) +
               (if response.head.createdAt == at then [response] else [])
  {
    var first := Apply(c.messages, AcceptEvent(user, runId, MAX_SAFE_INTEGER - 1));
    NewInOrder(c.messages, AcceptEvent(user, runId, MAX_SAFE_INTEGER - 1), user, at);
    StillNew(c.messages, user, response.head.id);
    NewInOrder(first, AcceptEvent(response, runId, MAX_SAFE_INTEGER), response, at);
  }

  lemma StillNew(messages: seq<Message>, m: Message, id: string)
    requires !HasId(messages, id) && m.head.id != id
    ensures !HasId(StableSort(messages + [m]), id)
  {
    var after := StableSort(messages + [m]);
    forall i | 0 <= i < |after| ensures after[i].head.id != id {
      StableSortMembers(messages + [m], after[i]);
    }
  }

  lemma NewInOrder(messages: seq<Message>, e: Event, m: Message, at: int)
    requires Classify(e) == Put(Incoming(m.head, Some(m.parts))) && !HasId(messages, m.head.id)
    ensures Apply(messages, e) == StableSort(messages + [m])
    ensures SortedByCreation(Apply(messages, e))
    ensures CreatedAt(Apply(messages, e), at) ==
            CreatedAt(messages, at) + if m.head.createdAt == at then [m] else []
  {
    StableSortCorrect(messages + [m], at);
    CreatedAtPush(messages, m, at);
  }
}
