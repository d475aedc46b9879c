/**
What the event reducer keeps and where it converges.  The list-level reducer is shown to act on
each message id on its own (`FoldIsPerMessage`); every other result is read off that.
*/
module ChatReducerProofs {
  import opened Wrappers
  import opened ChatEvents

  // ---------------------------------------------------------------- ids

  ghost predicate UniqueIds(messages: seq<Message>) {
    forall i, j :: 0 <= i < j < |messages| ==> messages[i].head.id != messages[j].head.id
  }

  lemma {:induction false} InsertUnique(sorted: seq<Message>, m: Message)
    requires UniqueIds(sorted) && !HasId(sorted, m.head.id)
    ensures UniqueIds(InsertByCreation(sorted, m))
  {
    if sorted != [] && sorted[|sorted| - 1].head.createdAt > m.head.createdAt {
      var front, last := sorted[..|sorted| - 1], sorted[|sorted| - 1];
      InsertUnique(front, m);
      var r := InsertByCreation(front, m);
      forall i | 0 <= i < |r| ensures r[i].head.id != last.head.id {
        InsertMembers(front, m, r[i]);
        if r[i] != m {
          var k :| 0 <= k < |front| && front[k] == r[i];
          assert sorted[k].head.id != sorted[|sorted| - 1].head.id;
        }
      }
    }
  }

  lemma {:induction false} SortUnique(messages: seq<Message>)
    requires UniqueIds(messages)
    ensures UniqueIds(StableSort(messages))
  {
    if messages != [] {
      var front, last := messages[..|messages| - 1], messages[|messages| - 1];
      SortUnique(front);
      var s := StableSort(front);
      if HasId(s, last.head.id) {
        var i :| 0 <= i < |s| && s[i].head.id == last.head.id;
        StableSortMembers(front, s[i]);
      }
      InsertUnique(s, last);
    }
  }

  /** The record shown for an id. */
  function Lookup(messages: seq<Message>, id: string): Option<Message> {
    if messages == [] then None
    else if messages[0].head.id == id then Some(messages[0])
    else Lookup(messages[1..], id)
  }

  lemma {:induction false} LookupMember(messages: seq<Message>, id: string)
    requires UniqueIds(messages)
    ensures Lookup(messages, id).Some? <==> HasId(messages, id)
    ensures forall m :: Lookup(messages, id) == Some(m) <==> m in messages && m.head.id == id
  {
    if messages != [] {
      var rest := messages[1..];
      assert messages == [messages[0]] + rest;
      LookupMember(rest, id);
      if HasId(rest, id) {
        var i :| 0 <= i < |rest| && rest[i].head.id == id;
        assert messages[i + 1].head.id == id;
      }
      if HasId(messages, id) && messages[0].head.id != id {
        var i :| 0 <= i < |messages| && messages[i].head.id == id;
        assert rest[i - 1].head.id == id;
      }
    }
  }

  // ---------------------------------------------------------------- one message at a time

  /** The reducer seen by one message id. */
  function StepRecord(record: Option<Message>, e: Event, id: string): (r: Option<Message>)
  {
    var effect := Classify(e);
    if Target(effect) != Some(id) then record else
    match record
    case Some(item) => Some(Update(item, effect))
    case None => if effect.Put? then Some(WithFallbackPart(effect.incoming)) else None
  }

  function FoldRecord(record: Option<Message>, events: seq<Event>, id: string): Option<Message> {
    if events == [] then record
    else StepRecord(FoldRecord(record, events[..|events| - 1], id), events[|events| - 1], id)
  }

  ghost predicate RecordOf(record: Option<Message>, id: string) {
    record.Some? ==> record.value.head.id == id
  }

  lemma {:induction false} ApplyUnique(messages: seq<Message>, e: Event)
    requires UniqueIds(messages)
    ensures UniqueIds(Apply(messages, e))
  {
    var effect := Classify(e);
    if effect.Put? && !HasId(messages, effect.incoming.head.id) {
      SortUnique(messages + [WithFallbackPart(effect.incoming)]);
    }
  }

  lemma {:induction false} CreateIsPerMessage(messages: seq<Message>, added: Message, id: string)
    requires UniqueIds(messages) && !HasId(messages, added.head.id)
    ensures Lookup(StableSort(messages + [added]), id) ==
            if added.head.id == id then Some(added) else Lookup(messages, id)
  {
    var after := StableSort(messages + [added]);
    SortUnique(messages + [added]);
    LookupMember(messages, id);
    LookupMember(after, id);
    forall x ensures x in after <==> x in messages || x == added {
      StableSortMembers(messages + [added], x);
    }
    if added.head.id == id {
      assert added in after;
    } else if Lookup(messages, id).Some? {
      assert Lookup(messages, id).value in after;
    }
  }

  lemma {:induction false} UpdateIsPerMessage(messages: seq<Message>, effect: Effect, id: string)
    requires UniqueIds(messages)
    ensures Lookup(UpdateAll(messages, effect), id) ==
            match Lookup(messages, id) case Some(m) => Some(Update(m, effect)) case None => None
  {
    if messages != [] {
      UpdateIsPerMessage(messages[1..], effect, id);
      assert UpdateAll(messages, effect)[1..] == UpdateAll(messages[1..], effect);
    }
  }

  lemma {:induction false} ApplyIsPerMessage(messages: seq<Message>, e: Event, id: string)
    requires UniqueIds(messages)
    ensures Lookup(Apply(messages, e), id) == StepRecord(Lookup(messages, id), e, id)
  {
    var effect := Classify(e);
    LookupMember(messages, id);
    if effect.Put? && !HasId(messages, effect.incoming.head.id) {
      CreateIsPerMessage(messages, WithFallbackPart(effect.incoming), id);
    } else {
      UpdateIsPerMessage(messages, effect, id);
    }
  }

  /** Ids stay unique, and each id evolves by its own events alone, whatever else is listed. */
  lemma {:induction false} FoldIsPerMessage(messages: seq<Message>, events: seq<Event>, id: string)
    requires UniqueIds(messages)
    ensures UniqueIds(Fold(messages, events))
    ensures Lookup(Fold(messages, events), id) == FoldRecord(Lookup(messages, id), events, id)
  {
    if events != [] {
      var front, last := events[..|events| - 1], events[|events| - 1];
      FoldIsPerMessage(messages, front, id);
      ApplyUnique(Fold(messages, front), last);
      ApplyIsPerMessage(Fold(messages, front), last, id);
    }
  }

  lemma {:induction false} RecordKeepsId(record: Option<Message>, events: seq<Event>, id: string)
    requires RecordOf(record, id)
    ensures RecordOf(FoldRecord(record, events, id), id)
  {
    if events != [] {
      RecordKeepsId(record, events[..|events| - 1], id);
    }
  }

  lemma {:induction false} FoldRecordAppend(record: Option<Message>, a: seq<Event>, b: seq<Event>, id: string)
    ensures FoldRecord(record, a + b, id) == FoldRecord(FoldRecord(record, a, id), b, id)
  {
    if b == [] {
      assert a + b == a;
    } else {
      FoldRecordAppend(record, a, b[..|b| - 1], id);
      assert (a + b)[..|a + b| - 1] == a + b[..|b| - 1];
    }
  }

  lemma {:induction false} FoldRecordUntouched(record: Option<Message>, events: seq<Event>, id: string)
    requires forall e :: e in events ==> !Touches(e, id)
    ensures FoldRecord(record, events, id) == record
  {
    if events != [] {
      FoldRecordUntouched(record, events[..|events| - 1], id);
      assert events[|events| - 1] in events;
    }
  }

  // ---------------------------------------------------------------- invariants of every event sequence

  ghost predicate Creates(events: seq<Event>, id: string) {
    exists i :: 0 <= i < |events| && Classify(events[i]).Put? && Touches(events[i], id)
  }

  lemma {:induction false} RecordPresence(record: Option<Message>, events: seq<Event>, id: string)
    ensures FoldRecord(record, events, id).Some? <==> record.Some? || Creates(events, id)
  {
    if events != [] {
      var front, last := events[..|events| - 1], events[|events| - 1];
      RecordPresence(record, front, id);
      if Creates(front, id) {
        var i :| 0 <= i < |front| && Classify(front[i]).Put? && Touches(front[i], id);
        assert Classify(events[i]).Put? && Touches(events[i], id);
      }
      if Creates(events, id) {
        var i :| 0 <= i < |events| && Classify(events[i]).Put? && Touches(events[i], id);
        assert i < |front| ==> front[i] == events[i];
      }
    }
  }

  /** No message disappears and none is invented: the shown ids are the initial and the created ones. */
  lemma {:induction false} IdsExactly(messages: seq<Message>, events: seq<Event>, id: string)
    requires UniqueIds(messages)
    ensures UniqueIds(Fold(messages, events))
    ensures HasId(Fold(messages, events), id) <==> HasId(messages, id) || Creates(events, id)
  {
    FoldIsPerMessage(messages, events, id);
    RecordPresence(Lookup(messages, id), events, id);
    LookupMember(messages, id);
    LookupMember(Fold(messages, events), id);
  }

  ghost predicate BornAt(messages: seq<Message>, birth: string -> int) {
    forall m :: m in messages ==> m.head.createdAt == birth(m.head.id)
  }

  ghost predicate KeepsBirth(e: Event, birth: string -> int) {
    Classify(e).Put? ==> Classify(e).incoming.head.createdAt == birth(Classify(e).incoming.head.id)
  }

  lemma {:induction false} OrderStep(messages: seq<Message>, e: Event, birth: string -> int)
    requires SortedByCreation(messages) && BornAt(messages, birth) && KeepsBirth(e, birth)
    ensures SortedByCreation(Apply(messages, e)) && BornAt(Apply(messages, e), birth)
  {
    var effect, after := Classify(e), Apply(messages, e);
    if effect.Put? && !HasId(messages, effect.incoming.head.id) {
      var added := messages + [WithFallbackPart(effect.incoming)];
      StableSortCorrect(added, 0);
      forall m | m in after ensures m.head.createdAt == birth(m.head.id) {
        StableSortMembers(added, m);
      }
    } else {
      forall i | 0 <= i < |messages|
        ensures after[i].head.createdAt == messages[i].head.createdAt == birth(after[i].head.id)
      {
        assert messages[i] in messages;
        assert after[i] == Update(messages[i], effect);
      }
    }
  }

  /** Payloads that never move a message in time keep the list in creation order. */
  lemma {:induction false} OrderKept(messages: seq<Message>, events: seq<Event>, birth: string -> int)
    requires SortedByCreation(messages) && BornAt(messages, birth)
    requires forall i :: 0 <= i < |events| ==> KeepsBirth(events[i], birth)
    ensures SortedByCreation(Fold(messages, events)) && BornAt(Fold(messages, events), birth)
  {
    if events != [] {
      OrderKept(messages, events[..|events| - 1], birth);
      OrderStep(Fold(messages, events[..|events| - 1]), events[|events| - 1], birth);
    }
  }

  /** The body block repeats the message content. */
  ghost predicate Projected(m: Message) {
    forall i :: 0 <= i < |m.parts| && IsBody(m.parts[i]) ==> m.parts[i].text == Some(m.head.content)
  }

  ghost predicate ProjectedPayload(e: Event) {
    Classify(e).Put? && Classify(e).incoming.parts.Some? ==>
      Projected(Message(Classify(e).incoming.head, Classify(e).incoming.parts.value))
  }

  lemma {:induction false} ProjectionStep(record: Message, e: Event)
    requires Projected(record) && ProjectedPayload(e)
    ensures Projected(Update(record, Classify(e)))
  {
  }

  /** Body blocks and message content stay in step through every event sequence. */
  lemma {:induction false} ProjectionKept(messages: seq<Message>, events: seq<Event>)
    requires forall m :: m in messages ==> Projected(m)
    requires forall e :: e in events ==> ProjectedPayload(e)
    ensures forall m :: m in Fold(messages, events) ==> Projected(m)
  {
    if events != [] {
      var front, last := events[..|events| - 1], events[|events| - 1];
      assert last in events;
      ProjectionKept(messages, front);
      var before := Fold(messages, front);
      var effect := Classify(last);
      forall m | m in Fold(messages, events) ensures Projected(m) {
        if effect.Put? && !HasId(before, effect.incoming.head.id) {
          StableSortMembers(before + [WithFallbackPart(effect.incoming)], m);
        } else {
          var i :| 0 <= i < |before| && m == UpdateAll(before, effect)[i];
          ProjectionStep(before[i], last);
        }
      }
    }
  }

  // ---------------------------------------------------------------- convergence

  /** Event `k` is the last one about `id`. */
  ghost predicate LastTouch(events: seq<Event>, k: nat, id: string) {
    k < |events| && Touches(events[k], id) && forall j :: k < j < |events| ==> !Touches(events[j], id)
  }

  lemma {:induction false} RecordAfterLastTouch(record: Option<Message>, events: seq<Event>, k: nat, id: string)
    requires RecordOf(record, id) && LastTouch(events, k, id)
    ensures RecordOf(FoldRecord(record, events[..k], id), id)
    ensures FoldRecord(record, events, id) == StepRecord(FoldRecord(record, events[..k], id), events[k], id)
  {
    var before, rest := events[..k], events[k + 1..];
    RecordKeepsId(record, before, id);
    assert events == before + [events[k]] + rest;
    FoldRecordAppend(record, before + [events[k]], rest, id);
    FoldRecordUntouched(FoldRecord(record, before + [events[k]], id), rest, id);
    assert (before + [events[k]])[..k] == before;
  }

  /**
  Snapshot-independent convergence: two browsers that started from any two lists and saw the same
  events agree on a message whose last event is a payload with a final status.
  */
  lemma {:induction false} Convergence(
    a: seq<Message>, b: seq<Message>, events: seq<Event>, k: nat, id: string, incoming: Incoming)
    requires UniqueIds(a) && UniqueIds(b)
    requires LastTouch(events, k, id) && Classify(events[k]) == Put(incoming)
    requires incoming.head.status != Processing
    ensures Lookup(Fold(a, events), id).Some? && Lookup(Fold(b, events), id).Some?
    ensures Lookup(Fold(a, events), id).value.head == Lookup(Fold(b, events), id).value.head == incoming.head
    ensures incoming.parts.Some? ==>
              Lookup(Fold(a, events), id) == Lookup(Fold(b, events), id)
              == Some(Message(incoming.head, incoming.parts.value))
  {
    FoldIsPerMessage(a, events, id);
    FoldIsPerMessage(b, events, id);
    LookupMember(a, id);
    LookupMember(b, id);
    RecordAfterLastTouch(Lookup(a, id), events, k, id);
    RecordAfterLastTouch(Lookup(b, id), events, k, id);
  }

  ghost predicate OverwritesEverywhere(e: Event, incoming: Incoming) {
    forall record: Option<Message> :: RecordOf(record, incoming.head.id) ==>
      StepRecord(record, e, incoming.head.id).Some? &&
      StepRecord(record, e, incoming.head.id).value.head == incoming.head
  }

  /** The exact boundary: a payload overwrites every earlier state unless its status is `processing`. */
  lemma OverwriteBoundary(e: Event, incoming: Incoming)
    requires Classify(e) == Put(incoming)
    ensures OverwritesEverywhere(e, incoming) <==> incoming.head.status != Processing
  {
    var finished := Message(incoming.head.(status := Completed), []);
    if incoming.head.status == Processing {
      assert StepRecord(Some(finished), e, incoming.head.id) == Some(finished);
      assert RecordOf(Some(finished), incoming.head.id);
    }
  }

  // ---------------------------------------------------------------- each event, field by field

  /** A text or Markdown block at position 0. */
  ghost predicate TextBlock(p: Part) {
    p.position == 0 && p.kind in {TextPart, MarkdownPart}
  }

  /** A delta extends content and body blocks and marks the message as streaming; nothing else changes. */
  lemma DeltaShown(record: Message, e: Event, delta: string)
    requires e.eventType == MessageDelta && e.payload.messageId == Some(record.head.id)
    requires e.payload.delta == Some(delta)
    ensures var after := StepRecord(Some(record), e, record.head.id);
            after.Some? &&
            after.value.head == record.head.(content := record.head.content + delta, status := Streaming) &&
            |after.value.parts| == |record.parts| &&
            forall i :: 0 <= i < |record.parts| ==>
              after.value.parts[i] ==
              if TextBlock(record.parts[i]) then
                record.parts[i].(
                  text := Some(if record.parts[i].text.Some? then record.parts[i].text.value + delta else delta),
                  updatedAt := e.occurredAt)
              else record.parts[i]
  {
    assert "" + delta == delta;
  }

  /** A cancelled or failed run changes the status of its answer and nothing else. */
  lemma AbortShown(record: Message, e: Event)
    requires e.eventType in {RunCancelled, RunFailed} && e.payload.responseMessageId == Some(record.head.id)
    ensures StepRecord(Some(record), e, record.head.id) ==
            Some(Message(
               record.head.(status := if e.eventType == RunCancelled then Cancelled else Failed), record.parts))
  {
  }

  ghost predicate CarriesMessage(e: Event) {
    && e.eventType in {MessageCreated, MessageCompleted, MessageSuppressed}
    && e.payload.id.Some? && e.payload.conversationId.Some? && e.payload.senderType.Some? && e.payload.content.Some?
    && e.payload.status.Some? && e.payload.createdAt.Some? && e.payload.updatedAt.Some?
  }

  /** The head has every field of the payload. */
  ghost predicate HeadOf(h: Head, p: Payload) {
    && Some(h.id) == p.id && Some(h.conversationId) == p.conversationId && Some(h.senderType) == p.senderType
    && Some(h.content) == p.content && Some(h.status) == p.status && Some(h.createdAt) == p.createdAt
    && Some(h.updatedAt) == p.updatedAt && h.senderId == p.senderId && h.clientMessageId == p.clientMessageId
    && h.editedFromId == p.editedFromId
  }

  /** The block made up for a message whose payload has no blocks. */
  ghost predicate LegacyBlock(p: Part, h: Head) {
    && p.id == "legacy-" + h.id && p.position == 0 && p.kind == MarkdownPart && p.text == Some(h.content)
    && p.attachmentId == None && p.contentType == None && p.fileName == None && p.sizeBytes == None
    && p.sha256 == None && p.altText == None && p.createdAt == h.createdAt && p.updatedAt == h.updatedAt
  }

  /** A payload about a message that is not listed: shown as sent, with one made-up block if it has none. */
  lemma NewShown(e: Event, id: string)
    requires CarriesMessage(e) && e.payload.id == Some(id)
    ensures var after := StepRecord(None, e, id);
            after.Some? && HeadOf(after.value.head, e.payload) &&
            match e.payload.parts
            case Some(parts) => after.value.parts == parts
            case None => |after.value.parts| == 1 && LegacyBlock(after.value.parts[0], after.value.head)
  {
  }

  /**
  A payload about a listed message: ignored if it says processing and more is shown; otherwise it
  replaces the message, and without blocks only the body blocks follow it.
  */
  lemma PayloadShown(record: Message, e: Event)
    requires CarriesMessage(e) && e.payload.id == Some(record.head.id)
    ensures var after := StepRecord(Some(record), e, record.head.id);
            after.Some? &&
            if e.payload.status == Some(Processing) && record.head.status in {Streaming, Completed, Suppressed} then
              after.value == record
            else
              HeadOf(after.value.head, e.payload) &&
              match e.payload.parts
              case Some(parts) => after.value.parts == parts
              case None =>
                |after.value.parts| == |record.parts| &&
                forall i :: 0 <= i < |record.parts| ==>
                  after.value.parts[i] ==
                  if TextBlock(record.parts[i]) then
                    record.parts[i].(text := e.payload.content, updatedAt := after.value.head.updatedAt)
                  else record.parts[i]
  {
  }

  /** Every other event, and every malformed one, leaves every message as it is. */
  lemma OtherShown(record: Option<Message>, e: Event, id: string)
    requires RecordOf(record, id)
    requires !(CarriesMessage(e) && e.payload.id == Some(id))
    requires !(e.eventType == MessageDelta && e.payload.messageId == Some(id) && e.payload.delta.Some?)
    requires !(e.eventType in {RunCancelled, RunFailed} && e.payload.responseMessageId == Some(id))
    ensures StepRecord(record, e, id) == record
  {
  }

  /** Deltas and aborts of a message that is not listed show nothing. */
  lemma UnlistedShown(e: Event, id: string)
    requires e.eventType in {MessageDelta, RunCancelled, RunFailed}
    ensures StepRecord(None, e, id) == None
  {
  }
}
