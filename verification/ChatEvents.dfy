/**
The browser's event reducer for one conversation: a list of messages is folded over the
conversation's event log.  Times are integer keys; an `Option` payload field is `None` when the
JSON field is absent or has the wrong type.
*/
module ChatEvents {
  import opened Wrappers

  datatype PartKind = TextPart | MarkdownPart | ImagePart | FilePart

  datatype Part = Part(
    id: string, position: int, kind: PartKind, text: Option<string>,
    attachmentId: Option<string>, contentType: Option<string>, fileName: Option<string>,
    sizeBytes: Option<int>, sha256: Option<string>, altText: Option<string>,
    createdAt: int, updatedAt: int)

  datatype Status =
    | Received | Processing | Streaming | Completed | Suppressed | Cancelled | Failed
    | OtherStatus(name: string)

  /** Every field of a message except its content blocks. */
  datatype Head = Head(
    id: string, conversationId: string, senderType: string, senderId: Option<string>,
    content: string, status: Status, clientMessageId: Option<string>,
    createdAt: int, updatedAt: int, editedFromId: Option<string>)

  datatype Message = Message(head: Head, parts: seq<Part>)

  /** A message payload that passed the type guard; `parts` may be missing in old events. */
  datatype Incoming = Incoming(head: Head, parts: Option<seq<Part>>)

  datatype EventType =
    | MessageCreated | MessageCompleted | MessageSuppressed | MessageDelta
    | RunQueued | RunStarted | RunCompleted | RunCancelled | RunFailed
    | OtherEvent(name: string)

  datatype Payload = Payload(
    id: Option<string>, conversationId: Option<string>, senderType: Option<string>,
    content: Option<string>, status: Option<Status>, createdAt: Option<int>, updatedAt: Option<int>,
    senderId: Option<string>, clientMessageId: Option<string>, editedFromId: Option<string>,
    parts: Option<seq<Part>>,
    messageId: Option<string>, delta: Option<string>, responseMessageId: Option<string>)

  datatype Event = Event(
    sequence: nat, eventType: EventType, occurredAt: int, runId: Option<string>, payload: Payload)

  /** What an event means for the message list. */
  datatype Effect =
    | NoEffect
    | Put(incoming: Incoming)
    | Extend(id: string, delta: string, at: int)
    | Mark(id: string, status: Status)

  predicate IsMessagePayload(p: Payload) {
    p.id.Some? && p.conversationId.Some? && p.senderType.Some? && p.content.Some? && p.status.Some? &&
    p.createdAt.Some? && p.updatedAt.Some?
  }

  function AsIncoming(p: Payload): Incoming
    requires IsMessagePayload(p)
  {
    Incoming(
      Head(p.id.value, p.conversationId.value, p.senderType.value, p.senderId, p.content.value,
           p.status.value, p.clientMessageId, p.createdAt.value, p.updatedAt.value, p.editedFromId),
      p.parts)
  }

  function Classify(e: Event): Effect {
    match e.eventType
    case MessageCreated | MessageCompleted | MessageSuppressed =>
      if IsMessagePayload(e.payload) then Put(AsIncoming(e.payload)) else NoEffect
    case MessageDelta =>
      if e.payload.messageId.Some? && e.payload.delta.Some? then
        Extend(e.payload.messageId.value, e.payload.delta.value, e.occurredAt)
      else
        NoEffect
    case RunCancelled =>
      if e.payload.responseMessageId.Some? then Mark(e.payload.responseMessageId.value, Cancelled) else NoEffect
    case RunFailed =>
      if e.payload.responseMessageId.Some? then Mark(e.payload.responseMessageId.value, Failed) else NoEffect
    case _ => NoEffect
  }

  /** The message an effect is about, if any. */
  function Target(effect: Effect): Option<string> {
    match effect
    case NoEffect => None
    case Put(incoming) => Some(incoming.head.id)
    case Extend(id, _, _) => Some(id)
    case Mark(id, _) => Some(id)
  }

  predicate Touches(e: Event, id: string) {
    Target(Classify(e)) == Some(id)
  }

  // ---------------------------------------------------------------- content blocks

  /** The block that mirrors the message body. */
  predicate IsBody(p: Part) {
    p.position == 0 && (p.kind == TextPart || p.kind == MarkdownPart)
  }

  function FallbackPart(head: Head): Part {
    Part("legacy-" + head.id, 0, MarkdownPart, Some(head.content), None, None, None, None, None, None,
         head.createdAt, head.updatedAt)
  }

  function WithFallbackPart(incoming: Incoming): Message {
    match incoming.parts
    case Some(parts) => Message(incoming.head, parts)
    case None => Message(incoming.head, [FallbackPart(incoming.head)])
  }

  function SetBody(p: Part, text: string, at: int): Part {
    if IsBody(p) then p.(text := Some(text), updatedAt := at) else p
  }

  function ExtendBody(p: Part, delta: string, at: int): Part {
    if IsBody(p) then p.(text := Some((if p.text.Some? then p.text.value else "") + delta), updatedAt := at)
    else p
  }

  function SetBodies(parts: seq<Part>, text: string, at: int): seq<Part> {
    seq(|parts|, i requires 0 <= i < |parts| => SetBody(parts[i], text, at))
  }

  function ExtendBodies(parts: seq<Part>, delta: string, at: int): seq<Part> {
    seq(|parts|, i requires 0 <= i < |parts| => ExtendBody(parts[i], delta, at))
  }

  // ---------------------------------------------------------------- the reducer

  /** Statuses that a late `processing` payload must not overwrite. */
  predicate Settled(s: Status) {
    s == Streaming || s == Completed || s == Suppressed
  }

  function Merge(item: Message, incoming: Incoming): Message {
    if incoming.head.status == Processing && Settled(item.head.status) then
      item
    else if incoming.parts.Some? then
      WithFallbackPart(incoming)
    else
      Message(incoming.head, SetBodies(item.parts, incoming.head.content, incoming.head.updatedAt))
  }

  /** The effect on a message that is already listed. */
  function Update(item: Message, effect: Effect): Message {
    if Target(effect) != Some(item.head.id) then item else
    match effect
    case NoEffect => item
    case Put(incoming) => Merge(item, incoming)
    case Extend(_, delta, at) =>
      Message(item.head.(content := item.head.content + delta, status := Streaming),
              ExtendBodies(item.parts, delta, at))
    case Mark(_, status) => Message(item.head.(status := status), item.parts)
  }

  predicate HasId(messages: seq<Message>, id: string) {
    exists i :: 0 <= i < |messages| && messages[i].head.id == id
  }

  function UpdateAll(messages: seq<Message>, effect: Effect): seq<Message> {
    seq(|messages|, i requires 0 <= i < |messages| => Update(messages[i], effect))
  }

  function Apply(messages: seq<Message>, e: Event): seq<Message> {
    var effect := Classify(e);
    if effect.Put? && !HasId(messages, effect.incoming.head.id) then
      StableSort(messages + [WithFallbackPart(effect.incoming)])
    else
      UpdateAll(messages, effect)
  }

  function Fold(messages: seq<Message>, events: seq<Event>): seq<Message> {
    if events == [] then messages
    else Apply(Fold(messages, events[..|events| - 1]), events[|events| - 1])
  }

  // ---------------------------------------------------------------- stable sort by creation time

  function InsertByCreation(sorted: seq<Message>, m: Message): seq<Message> {
    if sorted == [] || sorted[|sorted| - 1].head.createdAt <= m.head.createdAt then
      sorted + [m]
    else
      InsertByCreation(sorted[..|sorted| - 1], m) + [sorted[|sorted| - 1]]
  }

  function StableSort(messages: seq<Message>): seq<Message> {
    if messages == [] then [] else
    InsertByCreation(StableSort(messages[..|messages| - 1]), messages[|messages| - 1])
  }

  ghost predicate SortedByCreation(messages: seq<Message>) {
    forall i, j :: 0 <= i < j < |messages| ==> messages[i].head.createdAt <= messages[j].head.createdAt
  }

  function CreatedAt(messages: seq<Message>, t: int): seq<Message> {
    if messages == [] then [] else
    var rest := CreatedAt(messages[..|messages| - 1], t);
    if messages[|messages| - 1].head.createdAt == t then rest + [messages[|messages| - 1]] else rest
  }

  lemma {:induction false} InsertMembers(sorted: seq<Message>, m: Message, x: Message)
    ensures x in InsertByCreation(sorted, m) <==> x in sorted || x == m
  {
    if sorted != [] && sorted[|sorted| - 1].head.createdAt > m.head.createdAt {
      InsertMembers(sorted[..|sorted| - 1], m, x);
      assert sorted == sorted[..|sorted| - 1] + [sorted[|sorted| - 1]];
    }
  }

  lemma {:induction false} InsertSorted(sorted: seq<Message>, m: Message)
    requires SortedByCreation(sorted)
    ensures SortedByCreation(InsertByCreation(sorted, m))
  {
    if sorted != [] && sorted[|sorted| - 1].head.createdAt > m.head.createdAt {
      var front, last := sorted[..|sorted| - 1], sorted[|sorted| - 1];
      InsertSorted(front, m);
      var r := InsertByCreation(front, m);
      forall i | 0 <= i < |r| ensures r[i].head.createdAt <= last.head.createdAt {
        InsertMembers(front, m, r[i]);
      }
    }
  }

  lemma {:induction false} InsertStable(sorted: seq<Message>, m: Message, t: int)
    requires SortedByCreation(sorted)
    ensures CreatedAt(InsertByCreation(sorted, m), t) == CreatedAt(sorted + [m], t)
  {
    assert (sorted + [m])[..|sorted|] == sorted;
    if sorted != [] && sorted[|sorted| - 1].head.createdAt > m.head.createdAt {
      var front, last := sorted[..|sorted| - 1], sorted[|sorted| - 1];
      InsertStable(front, m, t);
      var r := InsertByCreation(front, m);
      assert (r + [last])[..|r|] == r;
      assert (front + [m])[..|front|] == front;
    }
  }

  /** The sort is a sort, and it is stable: messages created at the same time keep their order. */
  lemma {:induction false} StableSortCorrect(messages: seq<Message>, t: int)
    ensures SortedByCreation(StableSort(messages))
    ensures CreatedAt(StableSort(messages), t) == CreatedAt(messages, t)
  {
    if messages != [] {
      var front, last := messages[..|messages| - 1], messages[|messages| - 1];
      StableSortCorrect(front, t);
      InsertSorted(StableSort(front), last);
      InsertStable(StableSort(front), last, t);
      var s := StableSort(front);
      assert (s + [last])[..|s|] == s;
    }
  }

  lemma {:induction false} StableSortMembers(messages: seq<Message>, x: Message)
    ensures x in StableSort(messages) <==> x in messages
  {
    if messages != [] {
      var front, last := messages[..|messages| - 1], messages[|messages| - 1];
      assert messages == front + [last];
      StableSortMembers(front, x);
      InsertMembers(StableSort(front), last, x);
    }
  }
}
