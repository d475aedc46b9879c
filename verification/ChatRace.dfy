/**
The race between the transports of one conversation.  The socket delivers the logged events in
order; history pages and HTTP answers bring stored messages at any moment, older or newer than
what the socket has delivered.  The exact effect on one message is two numbers: how much more
text is shown than was logged, and which status.
*/
module ChatRace {
  import opened Wrappers
  import opened ChatEvents
  import opened ChatReducerProofs

  /** One update of the message list. */
  datatype Arrival =
    | FromSocket(event: Event)          // the next logged event
    | FromAccept(event: Event)          // a message of an HTTP answer
    | FromLoad(items: seq<Message>)     // a history page

  function Logged(stream: seq<Arrival>): seq<Event> {
    if stream == [] then []
    else if stream[|stream| - 1].FromSocket? then
      Logged(stream[..|stream| - 1]) + [stream[|stream| - 1].event]
    else
      Logged(stream[..|stream| - 1])
  }

  function Arrive(messages: seq<Message>, a: Arrival): seq<Message> {
    match a
    case FromSocket(e) => Apply(messages, e)
    case FromAccept(e) => Apply(messages, e)
    case FromLoad(items) => items
  }

  /** What is listed after a stream of updates. */
  function Shown(messages: seq<Message>, stream: seq<Arrival>): seq<Message> {
    if stream == [] then messages
    else Arrive(Shown(messages, stream[..|stream| - 1]), stream[|stream| - 1])
  }

  /** The events about one message, in order. */
  function About(events: seq<Event>, id: string): seq<Event> {
    if events == [] then []
    else if Touches(events[|events| - 1], id) then
      About(events[..|events| - 1], id) + [events[|events| - 1]]
    else
      About(events[..|events| - 1], id)
  }

  lemma AboutPush(events: seq<Event>, e: Event, id: string)
    ensures About(events + [e], id) == About(events, id) + if Touches(e, id) then [e] else []
  {
    assert (events + [e])[..|events|] == events;
  }

  lemma {:induction false} AboutAppend(a: seq<Event>, b: seq<Event>, id: string)
    ensures About(a + b, id) == About(a, id) + About(b, id)
  {
    if b == [] {
      assert a + b == a;
    } else {
      AboutAppend(a, b[..|b| - 1], id);
      assert (a + b)[..|a + b| - 1] == a + b[..|b| - 1];
    }
  }

  lemma {:induction false} AboutTouches(events: seq<Event>, id: string)
    ensures forall i :: 0 <= i < |About(events, id)| ==> Touches(About(events, id)[i], id)
  {
    if events != [] {
      AboutTouches(events[..|events| - 1], id);
    }
  }

  // ---------------------------------------------------------------- one message

  function ArriveRecord(record: Option<Message>, a: Arrival, id: string): Option<Message> {
    match a
    case FromSocket(e) => StepRecord(record, e, id)
    case FromAccept(e) => StepRecord(record, e, id)
    case FromLoad(items) => Lookup(items, id)
  }

  /** What a stream of updates shows of one message that was not listed before. */
  function Record(stream: seq<Arrival>, id: string): Option<Message> {
    if stream == [] then None
    else ArriveRecord(Record(stream[..|stream| - 1], id), stream[|stream| - 1], id)
  }

  ghost predicate LoadsUnique(stream: seq<Arrival>) {
    forall i :: 0 <= i < |stream| && stream[i].FromLoad? ==> UniqueIds(stream[i].items)
  }

  /** Every message is shown as its own events, answers and pages leave it. */
  lemma {:induction false} ShownIsPerMessage(messages: seq<Message>, stream: seq<Arrival>, id: string)
    requires UniqueIds(messages) && LoadsUnique(stream) && Lookup(messages, id) == None
    ensures UniqueIds(Shown(messages, stream)) && Lookup(Shown(messages, stream), id) == Record(stream, id)
  {
    if stream != [] {
      var front, last := stream[..|stream| - 1], stream[|stream| - 1];
      ShownIsPerMessage(messages, front, id);
      if !last.FromLoad? {
        ApplyUnique(Shown(messages, front), last.event);
        ApplyIsPerMessage(Shown(messages, front), last.event, id);
      }
    }
  }

  /** The message as the log alone shows it. */
  function Told(log: seq<Event>, id: string): Option<Message> {
    FoldRecord(None, log, id)
  }

  lemma {:induction false} ToldAbout(events: seq<Event>, id: string)
    ensures Told(events, id) == Told(About(events, id), id)
  {
    if events != [] {
      var front, last := events[..|events| - 1], events[|events| - 1];
      ToldAbout(front, id);
      var log := About(front, id);
      assert (log + [last])[..|log|] == log;
    }
  }

  lemma ToldPush(log: seq<Event>, e: Event, id: string)
    ensures Told(log + [e], id) == StepRecord(Told(log, id), e, id)
  {
    assert (log + [e])[..|log|] == log;
  }

  // ---------------------------------------------------------------- stored and shown messages

  ghost predicate SameBlocks(a: seq<Part>, b: seq<Part>) {
    |a| == |b| && forall i :: 0 <= i < |a| ==> a[i].(updatedAt := 0) == b[i].(updatedAt := 0)
  }

  /** Statuses that are logged without the message's own update time. */
  predicate Loose(s: Status) {
    s == Streaming || s == Cancelled || s == Failed
  }

  /** A started run that has produced no text may still show as processing. */
  predicate StatusShows(stored: Status, shown: Status) {
    shown == stored || (stored == Streaming && shown == Processing)
  }

  /**
  `shown` is the browser's record of the stored message `m`: the same up to update times, except
  that a run that has started but produced no text still shows as processing.  Outside open and
  aborted runs the two are equal.
  */
  ghost predicate Mirrors(m: Message, shown: Message) {
    && shown.head == m.head.(status := shown.head.status, updatedAt := shown.head.updatedAt)
    && SameBlocks(m.parts, shown.parts)
    && StatusShows(m.head.status, shown.head.status)
    && (!Loose(m.head.status) ==> shown == m)
  }

  // ---------------------------------------------------------------- the story of one message

  function Deltas(log: seq<Event>): string {
    if log == [] then ""
    else if Classify(log[|log| - 1]).Extend? then
      Deltas(log[..|log| - 1]) + Classify(log[|log| - 1]).delta
    else
      Deltas(log[..|log| - 1])
  }

  lemma DeltasPush(log: seq<Event>, e: Event)
    ensures Deltas(log + [e]) == Deltas(log) + if Classify(e).Extend? then Classify(e).delta else ""
  {
    assert (log + [e])[..|log|] == log;
  }

  /** The created message grown by `text`, with a status; update times aside. */
  ghost predicate Looks(m: Message, created: Message, text: string, status: Status) {
    && m.head == created.head.(content := created.head.content + text, status := status, updatedAt := m.head.updatedAt)
    && SameBlocks(m.parts, ExtendBodies(created.parts, text, 0))
  }

  /** Body blocks have a text, as the table of content blocks demands. */
  ghost predicate Worded(m: Message) {
    forall i :: 0 <= i < |m.parts| && IsBody(m.parts[i]) ==> m.parts[i].text.Some?
  }

  ghost predicate Closes(e: Event) {
    Classify(e).Put?
  }

  /** What may be logged about a message after `before`: text, an abort, or one finished payload. */
  ghost predicate Continues(before: seq<Event>, e: Event, created: Message) {
    match Classify(e)
    case Put(p) =>
      p.parts.Some? && p.head.status in {Completed, Suppressed} &&
      Looks(Message(p.head, p.parts.value), created, Deltas(before), p.head.status) &&
      forall i :: 1 <= i < |before| ==> !Closes(before[i])
    case Extend(_, _, _) => true
    case Mark(_, status) => status in {Cancelled, Failed}
    case NoEffect => false
  }

  /** The log of one message: its creation, then anything that `Continues` allows. */
  ghost predicate Story(log: seq<Event>, created: Message) {
    log == [] ||
    (|log| == 1 && Classify(log[0]) == Put(Incoming(created.head, Some(created.parts)))) ||
    (|log| > 1 && created.head.status == Processing && Story(log[..|log| - 1], created) &&
     Continues(log[..|log| - 1], log[|log| - 1], created))
  }

  lemma {:induction false} StoryPrefix(log: seq<Event>, created: Message, n: nat)
    requires Story(log, created) && n <= |log|
    ensures Story(log[..n], created)
  {
    if n == |log| {
      assert log[..n] == log;
    } else if |log| > 1 {
      StoryPrefix(log[..|log| - 1], created, n);
      assert log[..|log| - 1][..n] == log[..n];
    }
  }

  lemma {:induction false} DeltasPrefix(log: seq<Event>, n: nat)
    requires n <= |log|
    ensures Deltas(log[..n]) <= Deltas(log)
  {
    if n == |log| {
      assert log[..n] == log;
    } else {
      DeltasPrefix(log[..|log| - 1], n);
      assert log[..|log| - 1][..n] == log[..n];
    }
  }

  /** Two prefixes of a log that carry equally much text carry the same text. */
  lemma SameLengthSameText(log: seq<Event>, m: nat, n: nat)
    requires m <= |log| && n <= |log| && |Deltas(log[..m])| == |Deltas(log[..n])|
    ensures Deltas(log[..m]) == Deltas(log[..n])
  {
    DeltasPrefix(log, m);
    DeltasPrefix(log, n);
    assert Deltas(log[..m]) == Deltas(log)[..|Deltas(log[..m])|];
    assert Deltas(log[..n]) == Deltas(log)[..|Deltas(log[..n])|];
  }

  function StatusAfter(created: Status, e: Event): Status {
    match Classify(e)
    case Put(p) => p.head.status
    case Extend(_, _, _) => Streaming
    case Mark(_, status) => status
    case NoEffect => created
  }

  lemma LooksAtFirst(created: Message)
    requires Worded(created)
    ensures Looks(created, created, "", created.head.status)
  {
    assert created.head.content + "" == created.head.content;
    forall i | 0 <= i < |created.parts|
      ensures created.parts[i].(updatedAt := 0) == ExtendBodies(created.parts, "", 0)[i].(updatedAt := 0)
    {
      if IsBody(created.parts[i]) {
        assert created.parts[i].text.value + "" == created.parts[i].text.value;
      }
    }
  }

  lemma LooksExtended(m: Message, created: Message, text: string, status: Status, delta: string, at: int)
    requires Looks(m, created, text, status) && Worded(created)
    ensures Looks(Update(m, Extend(m.head.id, delta, at)), created, text + delta, Streaming)
  {
    var after := Update(m, Extend(m.head.id, delta, at));
    assert created.head.content + text + delta == created.head.content + (text + delta);
    var once, twice := ExtendBodies(created.parts, text, 0), ExtendBodies(created.parts, text + delta, 0);
    forall i | 0 <= i < |after.parts| ensures after.parts[i].(updatedAt := 0) == twice[i].(updatedAt := 0) {
      assert m.parts[i].(updatedAt := 0) == once[i].(updatedAt := 0);
      if IsBody(created.parts[i]) {
        assert m.parts[i].text == once[i].text == Some(created.parts[i].text.value + text);
        assert created.parts[i].text.value + text + delta == created.parts[i].text.value + (text + delta);
      }
    }
  }

  lemma LooksMarked(m: Message, created: Message, text: string, status: Status, after: Status)
    requires Looks(m, created, text, status)
    ensures Looks(Update(m, Mark(m.head.id, after)), created, text, after)
  {
  }

  /** A stored picture of a message looks as the log tells, with its own status. */
  lemma PictureLooks(stored: Message, told: Message, created: Message, text: string)
    requires Mirrors(stored, told) && Looks(told, created, text, told.head.status)
    ensures Looks(stored, created, text, stored.head.status)
  {
  }

  lemma {:induction false} ToldLooks(log: seq<Event>, id: string, created: Message)
    requires Story(log, created) && log != [] && created.head.id == id && Worded(created)
    requires forall i :: 0 <= i < |log| ==> Touches(log[i], id)
    ensures Told(log, id).Some?
    ensures Looks(Told(log, id).value, created, Deltas(log), Told(log, id).value.head.status)
    ensures |log| > 1 ==> Told(log, id).value.head.status == StatusAfter(created.head.status, log[|log| - 1])
    ensures Closes(log[|log| - 1]) ==> Told(log, id) == Some(Message(Classify(log[|log| - 1]).incoming.head,
                                                              Classify(log[|log| - 1]).incoming.parts.value))
  {
    var front, last := log[..|log| - 1], log[|log| - 1];
    if |log| == 1 {
      LooksAtFirst(created);
      assert Told(front, id) == None;
      assert Deltas(front) == "";
    } else {
      assert forall i :: 0 <= i < |front| ==> front[i] == log[i];
      ToldLooks(front, id, created);
      assert Deltas(front) + "" == Deltas(front);
      if !Classify(last).Put? {
        StepLooks(Told(front, id).value, created, Deltas(front), last, id);
      }
    }
  }

  /** One further event of the story, on any record that looks like the created message. */
  lemma StepLooks(m: Message, created: Message, text: string, e: Event, id: string)
    requires Looks(m, created, text, m.head.status) && Worded(created) && created.head.id == id && Touches(e, id)
    requires !Classify(e).Put?
    ensures var after := Update(m, Classify(e));
            Looks(after, created, text + if Classify(e).Extend? then Classify(e).delta else "",
                  StatusAfter(created.head.status, e)) &&
            after.head.status == StatusAfter(created.head.status, e)
  {
    match Classify(e)
    case Extend(_, delta, at) => LooksExtended(m, created, text, m.head.status, delta, at);
    case Mark(_, status) =>
      LooksMarked(m, created, text, m.head.status, status);
      assert text + "" == text;
    case _ =>
  }

  /** Only a payload leaves a status that is not loose. */
  lemma {:induction false} FirmEnd(log: seq<Event>, id: string, created: Message, n: nat)
    requires Story(log, created) && 1 <= n <= |log| && created.head.id == id && Worded(created)
    requires forall i :: 0 <= i < |log| ==> Touches(log[i], id)
    ensures Told(log[..n], id).Some?
    ensures !Loose(Told(log[..n], id).value.head.status) ==> Classify(log[n - 1]).Put?
    ensures n == 1 ==> Told(log[..n], id) == Some(created)
    ensures n > 1 && Classify(log[n - 1]).Put? ==>
              created.head.status == Processing && Told(log[..n], id).value.head.status in {Completed, Suppressed} &&
              forall i :: 1 <= i < n - 1 ==> !Classify(log[i]).Put?
  {
    StoryPrefix(log, created, n);
    ToldLooks(log[..n], id, created);
    var told := log[..n];
    assert told[n - 1] == log[n - 1];
    forall i | 1 <= i < n - 1 ensures told[..n - 1][i] == log[i] {
    }
  }

  /** A message has each firm status at most once in its story. */
  lemma {:induction false} OneFinish(log: seq<Event>, id: string, created: Message, m: nat, n: nat)
    requires Story(log, created) && 1 <= m < n <= |log| && created.head.id == id && Worded(created)
    requires forall i :: 0 <= i < |log| ==> Touches(log[i], id)
    ensures Told(log[..m], id).Some? && Told(log[..n], id).Some?
    ensures Told(log[..m], id).value.head.status == Told(log[..n], id).value.head.status ==>
              Loose(Told(log[..m], id).value.head.status)
  {
    FirmEnd(log, id, created, m);
    FirmEnd(log, id, created, n);
  }

  // ---------------------------------------------------------------- where the shown message stands

  /** How many more characters are shown than were logged, and the shown status. */
  datatype Standing = Standing(lag: int, status: Status)

  function AfterEvent(standing: Option<Standing>, e: Event): Option<Standing> {
    match Classify(e)
    case Put(p) =>
      if standing.Some? && p.head.status == Processing && Settled(standing.value.status) then standing
      else Some(Standing(0, p.head.status))
    case Extend(_, _, _) => if standing.Some? then Some(standing.value.(status := Streaming)) else None
    case Mark(_, status) => if standing.Some? then Some(standing.value.(status := status)) else None
    case NoEffect => standing
  }

  /** The standing of a stored message that arrives after `log` was delivered. */
  function Brought(m: Message, created: Message, log: seq<Event>): Standing {
    Standing(|m.head.content| - |created.head.content| - |Deltas(log)|, m.head.status)
  }

  /** An answer is ignored when it says processing and the page already shows more. */
  predicate Ignored(standing: Option<Standing>, status: Status) {
    standing.Some? && status == Processing && Settled(standing.value.status)
  }

  function AfterArrival(
    standing: Option<Standing>, log: seq<Event>, a: Arrival, id: string, created: Message): Option<Standing>
  {
    match a
    case FromSocket(e) => if Touches(e, id) then AfterEvent(standing, e) else standing
    case FromAccept(e) =>
      if !Classify(e).Put? || !Touches(e, id) then standing
      else if Ignored(standing, Classify(e).incoming.head.status) then standing
      else Some(Brought(WithFallbackPart(Classify(e).incoming), created, log))
    case FromLoad(items) =>
      match Lookup(items, id)
      case None => None
      case Some(m) => Some(Brought(m, created, log))
  }

  function Stands(stream: seq<Arrival>, id: string, created: Message): Option<Standing> {
    if stream == [] then None else
    var front := stream[..|stream| - 1];
    AfterArrival(Stands(front, id, created), About(Logged(front), id), stream[|stream| - 1], id, created)
  }

  /** `m` is what the store held after some of the events about it. */
  ghost predicate Pictures(m: Message, whole: seq<Event>, id: string) {
    exists j :: 1 <= j <= |whole| && Told(whole[..j], id).Some? && Mirrors(m, Told(whole[..j], id).value)
  }

  /** Answers and pages bring stored messages. */
  ghost predicate BringsPictures(a: Arrival, whole: seq<Event>, id: string) {
    match a
    case FromSocket(_) => true
    case FromAccept(e) =>
      Touches(e, id) ==>
        Classify(e).Put? && Classify(e).incoming.parts.Some? &&
        Pictures(WithFallbackPart(Classify(e).incoming), whole, id)
    case FromLoad(items) => Lookup(items, id).Some? ==> Pictures(Lookup(items, id).value, whole, id)
  }

  ghost predicate AllPictures(stream: seq<Arrival>, whole: seq<Event>, id: string) {
    forall i :: 0 <= i < |stream| ==> BringsPictures(stream[i], whole, id)
  }

  function TextOf(m: Message, created: Message): string {
    if |created.head.content| <= |m.head.content| then m.head.content[|created.head.content|..] else ""
  }

  /** The shown record is exactly as its standing says. */
  ghost predicate Fits(
    record: Option<Message>, standing: Option<Standing>, log: seq<Event>, whole: seq<Event>, id: string,
    created: Message)
  {
    record.Some? == standing.Some? &&
    (record.Some? ==>
       var m, text := record.value, TextOf(record.value, created);
       m.head.status == standing.value.status && Looks(m, created, text, m.head.status) &&
       |text| == |Deltas(log)| + standing.value.lag && (standing.value.lag == 0 ==> text == Deltas(log)) &&
       (Loose(m.head.status) || exists j :: 1 <= j <= |whole| && record == Told(whole[..j], id)))
  }

  /** The log of one message, all of it and as far as it was delivered. */
  ghost predicate Telling(log: seq<Event>, whole: seq<Event>, id: string, created: Message) {
    log <= whole && Story(whole, created) && created.head.id == id && Worded(created) &&
    forall i :: 0 <= i < |whole| ==> Touches(whole[i], id)
  }

  lemma TextOfLooks(m: Message, created: Message, text: string, status: Status)
    requires Looks(m, created, text, status)
    ensures TextOf(m, created) == text
  {
  }

  lemma {:induction false} PictureFits(
    m: Message, log: seq<Event>, whole: seq<Event>, id: string, created: Message)
    requires Telling(log, whole, id, created) && Pictures(m, whole, id)
    ensures Fits(Some(m), Some(Brought(m, created, log)), log, whole, id, created)
  {
    var j :| 1 <= j <= |whole| && Told(whole[..j], id).Some? && Mirrors(m, Told(whole[..j], id).value);
    StoryPrefix(whole, created, j);
    ToldLooks(whole[..j], id, created);
    PictureLooks(m, Told(whole[..j], id).value, created, Deltas(whole[..j]));
    TextOfLooks(m, created, Deltas(whole[..j]), m.head.status);
    assert whole[..|log|] == log;
    if |Deltas(whole[..j])| == |Deltas(log)| {
      SameLengthSameText(whole, j, |log|);
    }
  }

  lemma {:induction false} EventFits(
    record: Option<Message>, standing: Option<Standing>, log: seq<Event>, e: Event, whole: seq<Event>,
    id: string, created: Message)
    requires Telling(log + [e], whole, id, created) && Fits(record, standing, log, whole, id, created)
    ensures Fits(StepRecord(record, e, id), AfterEvent(standing, e), log + [e], whole, id, created)
  {
    var after := log + [e];
    assert after[|log|] == e && whole[|log|] == e && whole[..|after|] == after && after[..|log|] == log;
    DeltasPush(log, e);
    StoryPrefix(whole, created, |after|);
    ToldLooks(after, id, created);
    if Classify(e).Put? {
      if StepRecord(record, e, id) != record {
        TextOfLooks(Told(after, id).value, created, Deltas(after), Told(after, id).value.head.status);
      }
    } else if record.Some? {
      var m, text := record.value, TextOf(record.value, created);
      StepLooks(m, created, text, e, id);
      TextOfLooks(Update(m, Classify(e)), created, text + if Classify(e).Extend? then Classify(e).delta else "",
                  StatusAfter(created.head.status, e));
    }
  }

  lemma {:induction false} StreamFits(stream: seq<Arrival>, whole: seq<Event>, id: string, created: Message)
    requires Telling(About(Logged(stream), id), whole, id, created) && AllPictures(stream, whole, id)
    ensures Fits(Record(stream, id), Stands(stream, id, created), About(Logged(stream), id), whole, id, created)
  {
    if stream != [] {
      var front, last := stream[..|stream| - 1], stream[|stream| - 1];
      var log := About(Logged(front), id);
      if last.FromSocket? {
        AboutPush(Logged(front), last.event, id);
      }
      assert BringsPictures(last, whole, id);
      StreamFits(front, whole, id, created);
      ArrivalFits(Record(front, id), Stands(front, id, created), log, last, whole, id, created);
    }
  }

  lemma {:induction false} ArrivalFits(
    record: Option<Message>, standing: Option<Standing>, log: seq<Event>, a: Arrival, whole: seq<Event>,
    id: string, created: Message)
    requires Telling(log, whole, id, created) && Fits(record, standing, log, whole, id, created)
    requires BringsPictures(a, whole, id)
    requires a.FromSocket? && Touches(a.event, id) ==> Telling(log + [a.event], whole, id, created)
    ensures Fits(ArriveRecord(record, a, id), AfterArrival(standing, log, a, id, created),
                 if a.FromSocket? && Touches(a.event, id) then log + [a.event] else log, whole, id, created)
  {
    match a
    case FromSocket(e) => if Touches(e, id) { EventFits(record, standing, log, e, whole, id, created); }
    case FromAccept(e) =>
      if Touches(e, id) { PictureFits(WithFallbackPart(Classify(e).incoming), log, whole, id, created); }
    case FromLoad(items) =>
      if Lookup(items, id).Some? { PictureFits(Lookup(items, id).value, log, whole, id, created); }
  }

  /** Shown as stored: no text too much or too little, and the right status. */
  ghost predicate InStep(standing: Option<Standing>, stored: Status) {
    standing.Some? && standing.value.lag == 0 && StatusShows(stored, standing.value.status)
  }

  /** A firm record that is told at some point of the story is the one told now if the statuses agree. */
  lemma {:induction false} FirmRecord(
    record: Message, log: seq<Event>, whole: seq<Event>, id: string, created: Message, j: nat)
    requires Telling(log, whole, id, created) && log != [] && 1 <= j <= |whole| && Told(log, id).Some?
    requires Told(whole[..j], id) == Some(record) && record.head.status == Told(log, id).value.head.status
    requires !Loose(record.head.status)
    ensures Told(log, id) == Some(record)
  {
    assert whole[..|log|] == log;
    if j < |log| {
      OneFinish(whole, id, created, j, |log|);
    } else if j > |log| {
      OneFinish(whole, id, created, |log|, j);
    }
  }

  lemma BothLook(stored: Message, shown: Message, created: Message, text: string)
    requires Looks(stored, created, text, stored.head.status) && Looks(shown, created, text, shown.head.status)
    requires StatusShows(stored.head.status, shown.head.status) && (!Loose(stored.head.status) ==> shown == stored)
    ensures Mirrors(stored, shown)
  {
  }

  lemma MirrorsSameText(stored: Message, shown: Message, created: Message, text: string)
    requires Looks(stored, created, text, stored.head.status) && Mirrors(stored, shown)
    ensures TextOf(shown, created) == text
  {
  }

  lemma {:induction false} FittingRecord(
    record: Option<Message>, standing: Option<Standing>, log: seq<Event>, whole: seq<Event>, id: string,
    created: Message, stored: Message)
    requires Telling(log, whole, id, created) && log != [] && Fits(record, standing, log, whole, id, created)
    requires Told(log, id).Some? && Mirrors(stored, Told(log, id).value)
    ensures record.Some? && Mirrors(stored, record.value) <==> InStep(standing, stored.head.status)
  {
    assert whole[..|log|] == log;
    StoryPrefix(whole, created, |log|);
    ToldLooks(log, id, created);
    PictureLooks(stored, Told(log, id).value, created, Deltas(log));
    if record.Some? && Mirrors(stored, record.value) {
      MirrorsSameText(stored, record.value, created, Deltas(log));
    }
    if InStep(standing, stored.head.status) {
      if !Loose(stored.head.status) {
        var j :| 1 <= j <= |whole| && record == Told(whole[..j], id);
        FirmRecord(record.value, log, whole, id, created, j);
      }
      BothLook(stored, record.value, created, Deltas(log));
    }
  }

  /**
  The exact effect of every race: wherever stored messages were brought in by answers and pages,
  a message is shown as the store has it if and only if its standing is in step.
  */
  lemma {:induction false} RaceExact(
    messages: seq<Message>, stream: seq<Arrival>, whole: seq<Event>, id: string, created: Message, stored: Message)
    requires UniqueIds(messages) && LoadsUnique(stream) && Lookup(messages, id) == None
    requires Telling(About(Logged(stream), id), whole, id, created) && AllPictures(stream, whole, id)
    requires About(Logged(stream), id) != []
    requires Told(Logged(stream), id).Some? && Mirrors(stored, Told(Logged(stream), id).value)
    ensures var shown := Lookup(Shown(messages, stream), id);
            shown.Some? && Mirrors(stored, shown.value) <==> InStep(Stands(stream, id, created), stored.head.status)
  {
    ShownIsPerMessage(messages, stream, id);
    StreamFits(stream, whole, id, created);
    ToldAbout(Logged(stream), id);
    var log := About(Logged(stream), id);
    FittingRecord(Record(stream, id), Stands(stream, id, created), log, whole, id, created, stored);
  }

  /** While text streams in, the shown text is the created one and exactly the logged text, unless it lags or leads. */
  lemma {:induction false} StreamedText(
    messages: seq<Message>, stream: seq<Arrival>, whole: seq<Event>, id: string, created: Message)
    requires UniqueIds(messages) && LoadsUnique(stream) && Lookup(messages, id) == None
    requires Telling(About(Logged(stream), id), whole, id, created) && AllPictures(stream, whole, id)
    ensures var shown, standing := Lookup(Shown(messages, stream), id), Stands(stream, id, created);
            var text := created.head.content + Deltas(About(Logged(stream), id));
            shown.Some? == standing.Some? &&
            (shown.Some? ==> |shown.value.head.content| == |text| + standing.value.lag) &&
            (shown.Some? ==> (shown.value.head.content == text <==> standing.value.lag == 0))
  {
    ShownIsPerMessage(messages, stream, id);
    StreamFits(stream, whole, id, created);
  }

  // ---------------------------------------------------------------- answers that do no harm

  /** Every answer about the message carries the created one, and none arrives right after an abort. */
  ghost predicate FirstAnswers(stream: seq<Arrival>, id: string, created: Message) {
    forall k :: 0 <= k < |stream| ==>
      !stream[k].FromLoad? &&
      (stream[k].FromAccept? && Touches(stream[k].event, id) ==>
         Classify(stream[k].event) == Put(Incoming(created.head, Some(created.parts))) &&
         !EndsAborted(About(Logged(stream[..k]), id)))
  }

  predicate EndsAborted(log: seq<Event>) {
    log != [] && Classify(log[|log| - 1]).Mark?
  }

  /** Then the answers leave no trace at all once the creation itself was delivered. */
  lemma {:induction false} FirstAnswersHarmless(stream: seq<Arrival>, whole: seq<Event>, id: string, created: Message)
    requires Telling(About(Logged(stream), id), whole, id, created) && FirstAnswers(stream, id, created)
    ensures if About(Logged(stream), id) == [] then Record(stream, id) in {None, Some(created)}
            else Record(stream, id) == Told(Logged(stream), id)
  {
    if stream != [] {
      var front, last := stream[..|stream| - 1], stream[|stream| - 1];
      var log := About(Logged(front), id);
      if last.FromSocket? {
        AboutPush(Logged(front), last.event, id);
        ToldPush(Logged(front), last.event, id);
      }
      forall k | 0 <= k < |front| ensures front[k] == stream[k] && front[..k] == stream[..k] {
      }
      assert FirstAnswers(front, id, created);
      FirstAnswersHarmless(front, whole, id, created);
      ToldAbout(Logged(front), id);
      HarmlessArrival(Record(front, id), log, last, whole, id, created);
      if last.FromSocket? {
        ToldAbout(Logged(stream), id);
        if Touches(last.event, id) {
          ToldPush(log, last.event, id);
        }
      }
    }
  }

  lemma {:induction false} HarmlessArrival(
    record: Option<Message>, log: seq<Event>, a: Arrival, whole: seq<Event>, id: string, created: Message)
    requires Telling(log, whole, id, created) && !a.FromLoad?
    requires if log == [] then record in {None, Some(created)} else record == Told(log, id)
    requires a.FromSocket? && Touches(a.event, id) ==> Telling(log + [a.event], whole, id, created)
    requires a.FromAccept? && Touches(a.event, id) ==>
               Classify(a.event) == Put(Incoming(created.head, Some(created.parts))) && !EndsAborted(log)
    ensures if a.FromAccept? || !Touches(a.event, id) then
              if log == [] then ArriveRecord(record, a, id) in {None, Some(created)}
              else ArriveRecord(record, a, id) == Told(log, id)
            else ArriveRecord(record, a, id) == StepRecord(Told(log, id), a.event, id)
  {
    if Touches(a.event, id) {
      if a.FromAccept? && log != [] {
        assert whole[..|log|] == log;
        FirmEnd(whole, id, created, |log|);
        StoryPrefix(whole, created, |log|);
        ToldLooks(log, id, created);
      } else if a.FromSocket? && log == [] {
        var first := log + [a.event];
        assert whole[..1] == first && first == [a.event];
        StoryPrefix(whole, created, 1);
      }
    }
  }

  // ---------------------------------------------------------------- one answer, whatever it carries

  /** What the answer meets: the standing after the delivered events alone. */
  function Plain(log: seq<Event>, id: string): Option<Standing> {
    if Told(log, id).Some? then Some(Standing(0, Told(log, id).value.head.status)) else None
  }

  ghost predicate AllSocket(stream: seq<Arrival>) {
    forall k :: 0 <= k < |stream| ==> stream[k].FromSocket?
  }

  lemma {:induction false} PlainEvent(log: seq<Event>, e: Event, whole: seq<Event>, id: string, created: Message)
    requires Telling(log + [e], whole, id, created)
    ensures AfterEvent(Plain(log, id), e) == Plain(log + [e], id)
  {
    var after := log + [e];
    assert whole[..|after|] == after && whole[|log|] == e && whole[..|log|] == log;
    ToldPush(log, e, id);
    StoryPrefix(whole, created, |after|);
    ToldLooks(after, id, created);
    FirmEnd(whole, id, created, |after|);
    if log != [] {
      FirmEnd(whole, id, created, |log|);
    }
  }

  /** A delivered event that overwrites what is shown: the finished payload, or a creation that is not ignored. */
  ghost predicate Overwrites(log: seq<Event>, i: nat, brought: Status) {
    i < |log| && Classify(log[i]).Put? &&
    (i >= 1 || !Settled(brought) || Classify(log[i]).incoming.head.status != Processing)
  }

  function AfterEvents(standing: Option<Standing>, events: seq<Event>): Option<Standing> {
    if events == [] then standing
    else AfterEvent(AfterEvents(standing, events[..|events| - 1]), events[|events| - 1])
  }

  lemma AfterEventsPush(standing: Option<Standing>, events: seq<Event>, e: Event)
    ensures AfterEvents(standing, events + [e]) == AfterEvent(AfterEvents(standing, events), e)
  {
    assert (events + [e])[..|events|] == events;
  }

  lemma StandsPush(stream: seq<Arrival>, a: Arrival, id: string, created: Message)
    ensures Logged(stream + [a]) == Logged(stream) + if a.FromSocket? then [a.event] else []
    ensures Stands(stream + [a], id, created) ==
            AfterArrival(Stands(stream, id, created), About(Logged(stream), id), a, id, created)
  {
    assert (stream + [a])[..|stream|] == stream;
  }

  lemma {:induction false} LoggedAppend(a: seq<Arrival>, b: seq<Arrival>)
    ensures Logged(a + b) == Logged(a) + Logged(b)
  {
    if b == [] {
      assert a + b == a;
    } else {
      LoggedAppend(a, b[..|b| - 1]);
      assert (a + b)[..|a + b| - 1] == a + b[..|b| - 1];
    }
  }

  lemma {:induction false} SocketSuffix(stream: seq<Arrival>, after: seq<Arrival>, id: string, created: Message)
    requires AllSocket(after)
    ensures Stands(stream + after, id, created) == AfterEvents(Stands(stream, id, created), About(Logged(after), id))
  {
    if after == [] {
      assert stream + after == stream;
    } else {
      var front, last := after[..|after| - 1], after[|after| - 1];
      assert after == front + [last] && stream + after == (stream + front) + [last];
      SocketSuffix(stream, front, id, created);
      StandsPush(stream + front, last, id, created);
      LoggedPush(front, last.event, id);
      AfterEventsPush(Stands(stream, id, created), About(Logged(front), id), last.event);
    }
  }

  lemma LoggedPush(front: seq<Arrival>, e: Event, id: string)
    ensures About(Logged(front + [FromSocket(e)]), id) ==
            About(Logged(front), id) + if Touches(e, id) then [e] else []
  {
    assert (front + [FromSocket(e)])[..|front|] == front;
    AboutPush(Logged(front), e, id);
  }

  lemma {:induction false} PlainEvents(
    log: seq<Event>, rest: seq<Event>, whole: seq<Event>, id: string, created: Message)
    requires Telling(log + rest, whole, id, created)
    ensures AfterEvents(Plain(log, id), rest) == Plain(log + rest, id)
  {
    if rest == [] {
      assert log + rest == log;
    } else {
      var front, last := rest[..|rest| - 1], rest[|rest| - 1];
      assert log + rest == (log + front) + [last];
      PlainEvents(log, front, whole, id, created);
      PlainEvent(log + front, last, whole, id, created);
    }
  }

  /** Where an answer that is not ignored leads when `rest` is delivered after it. */
  ghost predicate Ends(standing: Option<Standing>, log: seq<Event>, n: nat, brought: Standing, id: string) {
    standing.Some? &&
    (if exists i :: n <= i < |log| && Overwrites(log, i, brought.status) then standing == Plain(log, id)
     else standing.value.lag == brought.lag &&
          if |log| > n && |log| > 1 then Some(Standing(0, standing.value.status)) == Plain(log, id)
          else standing.value.status == brought.status)
  }

  lemma {:induction false} BroughtEvents(
    log: seq<Event>, rest: seq<Event>, brought: Standing, whole: seq<Event>, id: string, created: Message)
    requires Telling(log + rest, whole, id, created)
    ensures Ends(AfterEvents(Some(brought), rest), log + rest, |log|, brought, id)
  {
    if rest != [] {
      var front, last := rest[..|rest| - 1], rest[|rest| - 1];
      assert log + rest == (log + front) + [last];
      BroughtEvents(log, front, brought, whole, id, created);
      BroughtEvent(AfterEvents(Some(brought), front), log + front, |log|, last, brought, whole, id, created);
    }
  }

  lemma OverwritesPush(log: seq<Event>, n: nat, e: Event, brought: Status)
    requires n <= |log|
    ensures (exists i :: n <= i < |log + [e]| && Overwrites(log + [e], i, brought)) <==>
            (exists i :: n <= i < |log| && Overwrites(log, i, brought)) ||
            (Classify(e).Put? &&
             (log != [] || !Settled(brought) || Classify(e).incoming.head.status != Processing))
  {
    var after := log + [e];
    assert after[|log|] == e;
    if i :| n <= i < |log| && Overwrites(log, i, brought) {
      assert Overwrites(after, i, brought);
    }
    if i :| n <= i < |after| && Overwrites(after, i, brought) {
      assert i < |log| ==> Overwrites(log, i, brought);
    }
    if Classify(e).Put? && (log != [] || !Settled(brought) || Classify(e).incoming.head.status != Processing) {
      assert Overwrites(after, |log|, brought);
    }
  }

  lemma {:induction false} BroughtEvent(
    standing: Option<Standing>, log: seq<Event>, n: nat, e: Event, brought: Standing, whole: seq<Event>,
    id: string, created: Message)
    requires Telling(log + [e], whole, id, created) && n <= |log| && Ends(standing, log, n, brought, id)
    ensures Ends(AfterEvent(standing, e), log + [e], n, brought, id)
  {
    var after := log + [e];
    PlainEvent(log, e, whole, id, created);
    OverwritesPush(log, n, e, brought.status);
    assert whole[..|after|] == after && whole[|log|] == e;
    StoryPrefix(whole, created, |after|);
    ToldLooks(after, id, created);
    FirmEnd(whole, id, created, |after|);
  }

  /**
  One answer among delivered events, whatever stored message it carries: the message ends as
  stored exactly when the answer is ignored, or a later payload overwrites it, or it carries just
  as much text as had been delivered and a right status follows.
  */
  lemma {:induction false} OneAnswer(
    messages: seq<Message>, before: seq<Arrival>, e: Event, after: seq<Arrival>, whole: seq<Event>, id: string,
    created: Message, stored: Message)
    requires UniqueIds(messages) && Lookup(messages, id) == None && AllSocket(before) && AllSocket(after)
    requires BringsPictures(FromAccept(e), whole, id) && Touches(e, id)
    requires Telling(About(Logged(before + after), id), whole, id, created) && About(Logged(before + after), id) != []
    requires Told(Logged(before + after), id).Some? && Mirrors(stored, Told(Logged(before + after), id).value)
    ensures
      var shown := Lookup(Shown(messages, before + [FromAccept(e)] + after), id);
      var n, log := |About(Logged(before), id)|, About(Logged(before + after), id);
      var answer := WithFallbackPart(Classify(e).incoming);
      var brought := Brought(answer, created, About(Logged(before), id));
      shown.Some? && Mirrors(stored, shown.value) <==>
      (Ignored(Plain(About(Logged(before), id), id), brought.status) ||
       (exists i :: n <= i < |log| && Overwrites(log, i, brought.status)) ||
       (brought.lag == 0 && ((|log| > n && |log| > 1) || StatusShows(stored.head.status, brought.status))))
  {
    var stream, log := before + [FromAccept(e)], About(Logged(before), id);
    var rest := About(Logged(after), id);
    OneAnswerStands(before, e, after, whole, id, created);
    AllPicturesOne(before, e, after, whole, id);
    ToldAbout(Logged(before + after), id);
    RaceExact(messages, stream + after, whole, id, created, stored);
  }

  lemma AllPicturesOne(before: seq<Arrival>, e: Event, after: seq<Arrival>, whole: seq<Event>, id: string)
    requires AllSocket(before) && AllSocket(after) && BringsPictures(FromAccept(e), whole, id)
    ensures AllPictures(before + [FromAccept(e)] + after, whole, id)
    ensures LoadsUnique(before + [FromAccept(e)] + after)
  {
  }

  lemma {:induction false} OneAnswerStands(
    before: seq<Arrival>, e: Event, after: seq<Arrival>, whole: seq<Event>, id: string, created: Message)
    requires AllSocket(before) && AllSocket(after) && Touches(e, id) && Classify(e).Put?
    requires Telling(About(Logged(before + after), id), whole, id, created)
    ensures
      var stream, log := before + [FromAccept(e)] + after, About(Logged(before + after), id);
      var brought := Brought(WithFallbackPart(Classify(e).incoming), created, About(Logged(before), id));
      Logged(stream) == Logged(before + after) &&
      if Ignored(Plain(About(Logged(before), id), id), brought.status) then
        Stands(stream, id, created) == Plain(log, id)
      else Ends(Stands(stream, id, created), log, |About(Logged(before), id)|, brought, id)
  {
    var front, log, rest := before + [FromAccept(e)], About(Logged(before), id), About(Logged(after), id);
    SocketSuffix(front, after, id, created);
    LoggedAppend(before, after);
    LoggedAppend(front, after);
    StandsPush(before, FromAccept(e), id, created);
    AboutAppend(Logged(before), Logged(after), id);
    assert log + rest == About(Logged(before + after), id);
    PlainStands(before, whole, id, created);
    if Ignored(Plain(log, id), Classify(e).incoming.head.status) {
      PlainEvents(log, rest, whole, id, created);
    } else {
      BroughtEvents(log, rest, Brought(WithFallbackPart(Classify(e).incoming), created, log), whole, id, created);
    }
  }

  lemma {:induction false} PlainStands(before: seq<Arrival>, whole: seq<Event>, id: string, created: Message)
    requires AllSocket(before) && Telling(About(Logged(before), id), whole, id, created)
    ensures Stands(before, id, created) == Plain(About(Logged(before), id), id)
  {
    SocketSuffix([], before, id, created);
    assert [] + before == before;
    var log := About(Logged(before), id);
    assert [] + log == log;
    PlainEvents([], log, whole, id, created);
  }

  // ---------------------------------------------------------------- finished messages

  /** The stored message is not older than what was delivered. */
  ghost predicate NotOlder(m: Message, log: seq<Event>, whole: seq<Event>, id: string) {
    exists j :: 1 <= j <= |whole| && |log| <= j && Told(whole[..j], id).Some? && Mirrors(m, Told(whole[..j], id).value)
  }

  /** A page has the message, no older than what was delivered; an answer may also still say processing. */
  ghost predicate Timely(a: Arrival, log: seq<Event>, whole: seq<Event>, id: string) {
    match a
    case FromSocket(_) => true
    case FromAccept(e) =>
      Touches(e, id) && Classify(e).Put? ==>
        Classify(e).incoming.head.status == Processing ||
        NotOlder(WithFallbackPart(Classify(e).incoming), log, whole, id)
    case FromLoad(items) =>
      log != [] ==> Lookup(items, id).Some? && NotOlder(Lookup(items, id).value, log, whole, id)
  }

  ghost predicate AllTimely(stream: seq<Arrival>, whole: seq<Event>, id: string) {
    forall k :: 0 <= k < |stream| ==> Timely(stream[k], About(Logged(stream[..k]), id), whole, id)
  }

  predicate Finished(s: Status) {
    s == Received || s == Completed || s == Suppressed
  }

  lemma {:induction false} FinishingEvent(
    standing: Option<Standing>, log: seq<Event>, e: Event, whole: seq<Event>, id: string, created: Message)
    requires Telling(whole, whole, id, created) && whole == log + [e]
    requires Told(whole, id).Some? && Finished(Told(whole, id).value.head.status)
    ensures AfterEvent(standing, e) == Plain(whole, id)
  {
    assert whole[..|whole|] == whole && whole[|whole| - 1] == e;
    FirmEnd(whole, id, created, |whole|);
    ToldLooks(whole, id, created);
  }

  lemma {:induction false} FinishedArrival(
    a: Arrival, whole: seq<Event>, id: string, created: Message)
    requires Telling(whole, whole, id, created) && whole != []
    requires Told(whole, id).Some? && Finished(Told(whole, id).value.head.status)
    requires BringsPictures(a, whole, id) && Timely(a, whole, whole, id) && (a.FromSocket? ==> !Touches(a.event, id))
    ensures AfterArrival(Plain(whole, id), whole, a, id, created) == Plain(whole, id)
  {
    match a
    case FromSocket(_) =>
    case FromLoad(items) => FinishedPicture(Lookup(items, id).value, whole, id, created);
    case FromAccept(e) =>
      if Touches(e, id) {
        var m := WithFallbackPart(Classify(e).incoming);
        if m.head.status == Processing {
          FinishedNotProcessing(m, whole, id, created);
        } else {
          FinishedPicture(m, whole, id, created);
        }
      }
  }

  lemma {:induction false} FinishedPush(
    front: seq<Arrival>, last: Arrival, whole: seq<Event>, id: string, created: Message)
    requires Telling(whole, whole, id, created) && whole != [] && About(Logged(front + [last]), id) == whole
    requires Told(whole, id).Some? && Finished(Told(whole, id).value.head.status)
    requires BringsPictures(last, whole, id) && Timely(last, About(Logged(front), id), whole, id)
    requires About(Logged(front), id) == whole ==> Stands(front, id, created) == Plain(whole, id)
    ensures Stands(front + [last], id, created) == Plain(whole, id)
  {
    StandsPush(front, last, id, created);
    if last.FromSocket? {
      LoggedPush(front, last.event, id);
    }
    if last.FromSocket? && Touches(last.event, id) {
      FinishingEvent(Stands(front, id, created), About(Logged(front), id), last.event, whole, id, created);
    } else {
      FinishedArrival(last, whole, id, created);
    }
  }

  lemma FrontOf(stream: seq<Arrival>, whole: seq<Event>, id: string)
    requires stream != [] && AllPictures(stream, whole, id) && AllTimely(stream, whole, id)
    ensures var front, last := stream[..|stream| - 1], stream[|stream| - 1];
            AllPictures(front, whole, id) && AllTimely(front, whole, id) && BringsPictures(last, whole, id) &&
            Timely(last, About(Logged(front), id), whole, id)
  {
    TimelyFront(stream, whole, id);
  }

  /** Timely pages and answers cannot disturb a finished message. */
  lemma {:induction false} FinishedStands(stream: seq<Arrival>, whole: seq<Event>, id: string, created: Message)
    requires Telling(whole, whole, id, created) && whole != [] && About(Logged(stream), id) == whole
    requires AllPictures(stream, whole, id) && AllTimely(stream, whole, id)
    requires Told(whole, id).Some? && Finished(Told(whole, id).value.head.status)
    ensures Stands(stream, id, created) == Plain(whole, id)
  {
    var front, last := stream[..|stream| - 1], stream[|stream| - 1];
    assert stream == front + [last];
    FrontOf(stream, whole, id);
    if About(Logged(front), id) == whole {
      FinishedStands(front, whole, id, created);
    }
    FinishedPush(front, last, whole, id, created);
  }

  lemma TimelyFront(stream: seq<Arrival>, whole: seq<Event>, id: string)
    requires stream != [] && AllTimely(stream, whole, id)
    ensures AllTimely(stream[..|stream| - 1], whole, id)
  {
    var front := stream[..|stream| - 1];
    forall k | 0 <= k < |front| ensures Timely(front[k], About(Logged(front[..k]), id), whole, id) {
      assert front[k] == stream[k] && front[..k] == stream[..k];
    }
  }

  lemma {:induction false} FinishedPicture(m: Message, whole: seq<Event>, id: string, created: Message)
    requires Telling(whole, whole, id, created) && whole != [] && NotOlder(m, whole, whole, id)
    requires Told(whole, id).Some? && Finished(Told(whole, id).value.head.status)
    ensures Some(Brought(m, created, whole)) == Plain(whole, id)
  {
    assert whole[..|whole|] == whole;
    PictureFits(m, whole, whole, id, created);
    ToldLooks(whole, id, created);
    TextOfLooks(Told(whole, id).value, created, Deltas(whole), Told(whole, id).value.head.status);
  }

  /** An answer that still says processing is ignored by the finished message. */
  lemma {:induction false} FinishedNotProcessing(m: Message, whole: seq<Event>, id: string, created: Message)
    requires Telling(whole, whole, id, created) && whole != [] && Pictures(m, whole, id)
    requires Told(whole, id).Some? && Finished(Told(whole, id).value.head.status)
    requires m.head.status == Processing
    ensures Settled(Told(whole, id).value.head.status)
  {
    var j :| 1 <= j <= |whole| && Told(whole[..j], id).Some? && Mirrors(m, Told(whole[..j], id).value);
    assert whole[..|whole|] == whole;
    FirmEnd(whole, id, created, |whole|);
    FirmEnd(whole, id, created, j);
  }
}
