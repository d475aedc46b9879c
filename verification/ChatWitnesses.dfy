/** Concrete runs on the failing side of the protocol theorems' boundaries. */
module ChatWitnesses {
  import opened Wrappers
  import opened ChatEvents
  import opened ChatReducerProofs
  import opened ChatRace
  import opened ChatClient
  import opened ChatProtocol
  import opened ChatRuns

  function Note(id: string, sender: string, content: string, status: Status): Message {
    Message(Head(id, "c", sender, None, content, status, None, 0, 0, None),
            [Part("p", 0, MarkdownPart, Some(content), None, None, None, None, None, None, 0, 0)])
  }

  const Question := Note("q", "user", "?", Received)
  const Reply := Note("r", "agent", "", Processing)

  const Blank := Payload(None, None, None, None, None, None, None, None, None, None, None, None, None, None)

  function Creation(m: Message, sequence: nat): Event {
    AcceptEvent(m, "run", sequence)
  }

  function Text(sequence: nat, delta: string): Event {
    Event(sequence, MessageDelta, 0, None, Blank.(messageId := Some("r"), delta := Some(delta)))
  }

  function Abort(sequence: nat, eventType: EventType): Event {
    Event(sequence, eventType, 0, None, Blank.(responseMessageId := Some("r")))
  }

  function Finish(m: Message, sequence: nat): Event {
    AcceptEvent(m, "run", sequence).(eventType := MessageCompleted)
  }

  /** Connect, then send and deliver the whole log. */
  lemma {:induction false} ReadAll(log: seq<Event>, base: seq<Message>)
    requires Increasing(log)
    ensures var t := Run(Selected(log, base), CatchUp(|log|));
            Quiet(t, log) && Applied(t) == |log| && t.client.messages == Fold(base, log)
  {
    var s := Selected(log, base);
    SelectedValid(log, base);
    CatchUpReaches(s, |log|);
    CatchUpPlain(|log|);
    SocketRun(s, CatchUp(|log|), Run(s, CatchUp(|log|)));
    assert log[0..|log|] == log;
  }

  lemma {:induction false} SocketStream(s: System, actions: seq<Action>)
    requires Valid(s) && Without(actions, true, true)
    ensures AllSocket(UpdatesOf(s, actions))
  {
    if actions != [] {
      SocketStream(s, actions[..|actions| - 1]);
      PlainUpdates(Run(s, actions[..|actions| - 1]), actions[|actions| - 1]);
    }
  }

  lemma AloneTold(e: Event)
    requires Touches(e, "r")
    ensures Told([e], "r") == StepRecord(None, e, "r") && About([e], "r") == [e]
  {
    assert [] + [e] == [e];
    ToldPush([], e, "r");
    AboutPush([], e, "r");
  }

  lemma AloneText(e: Event)
    requires !Classify(e).Extend?
    ensures Deltas([e]) == ""
  {
    assert [] + [e] == [e];
    DeltasPush([], e);
  }

  lemma FirstTold(e: Event, m: Message)
    requires Classify(e) == Put(Incoming(m.head, Some(m.parts))) && m.head.id == "r"
    ensures Told([e], "r") == Some(m) && About([e], "r") == [e] && Deltas([e]) == "" && Story([e], m)
  {
    AloneTold(e);
    AloneText(e);
  }

  lemma NextTold(log: seq<Event>, e: Event, m: Message)
    requires log != [] && Story(log, m) && m.head.status == Processing && Continues(log, e, m)
    requires About(log, "r") == log && Touches(e, "r")
    ensures Told(log + [e], "r") == StepRecord(Told(log, "r"), e, "r")
    ensures About(log + [e], "r") == log + [e] && Story(log + [e], m)
    ensures Deltas(log + [e]) == Deltas(log) + if Classify(e).Extend? then Classify(e).delta else ""
  {
    assert (log + [e])[..|log|] == log;
    ToldPush(log, e, "r");
    AboutPush(log, e, "r");
    DeltasPush(log, e);
  }

  lemma TellsItself(log: seq<Event>)
    requires About(log, "r") == log && Story(log, Reply)
    ensures Telling(log, log, "r", Reply)
  {
    AboutTouches(log, "r");
  }

  const LateLog := [Creation(Reply, 1)] + [Abort(2, RunFailed)]

  lemma LateTelling()
    ensures About(LateLog, "r") == LateLog && Telling(LateLog, LateLog, "r", Reply)
    ensures Told(LateLog[..1], "r") == Some(Reply)
    ensures Told(LateLog, "r") == Some(Message(Reply.head.(status := Failed), Reply.parts))
  {
    FirstTold(Creation(Reply, 1), Reply);
    NextTold([Creation(Reply, 1)], Abort(2, RunFailed), Reply);
    TellsItself(LateLog);
    assert LateLog[..1] == [Creation(Reply, 1)];
  }

  lemma LateOutcome()
    ensures var told := Message(Reply.head.(status := Failed), Reply.parts);
            Mirrors(Reply, Reply) && Merge(told, Incoming(Reply.head, Some(Reply.parts))) == Reply
  {
  }

  lemma LateIncreasing()
    ensures Increasing(LateLog) && LateLog != [] && |LateLog| == 2
  {
  }

  lemma {:induction false} AnswerStep(s: System, actions: seq<Action>, answer: Message)
    ensures var a := Accept(Question, answer, "run");
            Run(s, actions + [a]) == Step(Run(s, actions), a) &&
            UpdatesOf(s, actions + [a]) ==
            UpdatesOf(s, actions) + [FromAccept(AcceptEvent(Question, "run", MAX_SAFE_INTEGER - 1)),
                                     FromAccept(AcceptEvent(answer, "run", MAX_SAFE_INTEGER))]
  {
    var a := Accept(Question, answer, "run");
    RunPush(s, actions, a);
    assert (actions + [a])[..|actions|] == actions;
  }

  lemma AnswerKeeps(before: System, answer: Message)
    ensures var t := Step(before, Accept(Question, answer, "run"));
            t.log == before.log && Applied(t) == Applied(before) &&
            t.client == AcceptRun(before.client, Question, answer, "run")
  {
  }

  /** What `ProtocolRace` asks for, when the whole log was read. */
  lemma RaceSetting(log: seq<Event>, actions: seq<Action>, t: System)
    requires Increasing(log) && log != [] && About(log, "r") == log && Telling(log, log, "r", Reply)
    requires t == Run(Selected(log, []), actions) && t.log == log && Applied(t) == |log| && Told(log, "r").Some?
    requires AllPictures(UpdatesOf(Selected(log, []), actions), log, "r")
    requires LoadsUnique(UpdatesOf(Selected(log, []), actions))
    ensures Race(log, [], actions, t, log, "r", Reply, Told(log, "r").value)
  {
    MirrorsItself(Told(log, "r").value);
    var seen := t.log[..Applied(t)];
    assert seen == log;
    assert Telling(About(seen, "r"), log, "r", Reply);
  }

  lemma MirrorsItself(m: Message)
    ensures Mirrors(m, m)
  {
  }

  /** An answer right after the whole log was read: what `ProtocolRace` asks for, and what is shown. */
  lemma {:induction false} AnswerAfter(log: seq<Event>, answer: Message, j: nat) returns (t: System, stored: Message)
    requires Increasing(log) && log != [] && About(log, "r") == log && Telling(log, log, "r", Reply)
    requires Told(log, "r").Some? && answer.head.id == "r"
    requires 1 <= j <= |log| && Told(log[..j], "r").Some? && Mirrors(answer, Told(log[..j], "r").value)
    ensures stored == Told(log, "r").value && t.client.activeRunId == Some("run")
    ensures Race(log, [], CatchUp(|log|) + [Accept(Question, answer, "run")], t, log, "r", Reply, stored)
    ensures Lookup(t.client.messages, "r") == Some(Merge(stored, Incoming(answer.head, Some(answer.parts))))
  {
    var s, actions := Selected(log, []), CatchUp(|log|);
    var before := Run(s, actions);
    t, stored := Run(s, actions + [Accept(Question, answer, "run")]), Told(log, "r").value;
    assert before.log == log && Applied(before) == |log| && before.client.messages == Fold([], log) by {
      ReadAll(log, []);
    }
    assert AllSocket(UpdatesOf(s, actions)) by {
      CatchUpPlain(|log|);
      SelectedValid(log, []);
      SocketStream(s, actions);
    }
    AnswerStep(s, actions, answer);
    AnswerKeeps(before, answer);
    AnswerStream(UpdatesOf(s, actions), Question, answer, log, j);
    RaceSetting(log, actions + [Accept(Question, answer, "run")], t);
    FoldIsPerMessage([], log, "r");
    AnswerShown(before.client, Question, answer);
  }

  /** A failed run whose accept response arrives last: the message is back at processing, and the run looks active. */
  lemma {:induction false} LateAnswer() returns (t: System, stored: Message)
    ensures Race(LateLog, [], CatchUp(2) + [Accept(Question, Reply, "run")], t, LateLog, "r", Reply, stored)
    ensures Lookup(t.client.messages, "r").Some?
    ensures stored.head.status == Failed && Lookup(t.client.messages, "r").value.head.status == Processing
    ensures t.client.activeRunId == Some("run")
  {
    LateIncreasing();
    LateTelling();
    LateOutcome();
    t, stored := AnswerAfter(LateLog, Reply, 1);
  }

  /** A stream of delivered events that ends with an answer. */
  lemma AnswerStream(stream: seq<Arrival>, user: Message, response: Message, whole: seq<Event>, j: nat)
    requires AllSocket(stream) && user.head.id != "r" && response.head.id == "r"
    requires 1 <= j <= |whole| && Told(whole[..j], "r").Some? && Mirrors(response, Told(whole[..j], "r").value)
    ensures var more := [FromAccept(AcceptEvent(user, "run", MAX_SAFE_INTEGER - 1)),
                         FromAccept(AcceptEvent(response, "run", MAX_SAFE_INTEGER))];
            AllPictures(stream + more, whole, "r") && LoadsUnique(stream + more)
  {
    assert Pictures(response, whole, "r");
  }

  lemma AnswerShown(c: Client, user: Message, response: Message)
    requires UniqueIds(c.messages) && user.head.id != "r" && response.head.id == "r"
    ensures var after := AcceptRun(c, user, response, "run");
            UniqueIds(after.messages) && after.activeRunId == Some("run") &&
            Lookup(after.messages, "r") ==
            Some(match Lookup(c.messages, "r")
                 case Some(m) => Merge(m, Incoming(response.head, Some(response.parts)))
                 case None => response)
  {
    var e, f := AcceptEvent(user, "run", MAX_SAFE_INTEGER - 1), AcceptEvent(response, "run", MAX_SAFE_INTEGER);
    var first := Apply(c.messages, e);
    ApplyUnique(c.messages, e);
    ApplyIsPerMessage(c.messages, e, "r");
    ApplyUnique(first, f);
    ApplyIsPerMessage(first, f, "r");
    LookupMember(c.messages, "r");
  }

  // ---------------------------------------------------------------- an answer that is ahead

  const Grown := Update(Reply, Extend("r", "a", 0))

  const DoubledLog := [Creation(Reply, 1)] + [Text(2, "a")] + [Abort(3, RunCancelled)]

  lemma DoubledTelling()
    ensures About(DoubledLog, "r") == DoubledLog && Telling(DoubledLog, DoubledLog, "r", Reply)
    ensures Told(DoubledLog[..2], "r") == Some(Grown)
    ensures Told(DoubledLog, "r") == Some(Update(Grown, Mark("r", Cancelled)))
  {
    FirstTold(Creation(Reply, 1), Reply);
    NextTold([Creation(Reply, 1)], Text(2, "a"), Reply);
    NextTold([Creation(Reply, 1)] + [Text(2, "a")], Abort(3, RunCancelled), Reply);
    TellsItself(DoubledLog);
    assert DoubledLog[..2] == [Creation(Reply, 1)] + [Text(2, "a")];
  }

  lemma RecordPush(record: Option<Message>, log: seq<Event>, e: Event, id: string)
    ensures FoldRecord(record, log + [e], id) == StepRecord(FoldRecord(record, log, id), e, id)
  {
    assert (log + [e])[..|log|] == log;
  }

  lemma ThreeSteps(record: Option<Message>, a: Event, b: Event, c: Event)
    ensures FoldRecord(record, [a] + [b] + [c], "r") ==
            StepRecord(StepRecord(StepRecord(record, a, "r"), b, "r"), c, "r")
  {
    assert [] + [a] == [a];
    RecordPush(record, [], a, "r");
    RecordPush(record, [a], b, "r");
    RecordPush(record, [a] + [b], c, "r");
  }

  lemma DoubledRecord()
    ensures var shown := FoldRecord(Some(Grown), DoubledLog, "r");
            shown.Some? && shown.value.head.content == "aa" && shown.value.head.status == Cancelled
  {
    ThreeSteps(Some(Grown), Creation(Reply, 1), Text(2, "a"), Abort(3, RunCancelled));
    assert StepRecord(Some(Grown), Creation(Reply, 1), "r") == Some(Grown);
    assert "" + "a" == "a" && "a" + "a" == "aa";
  }

  /** An answer before everything else. */
  lemma {:induction false} AnswerFirst(log: seq<Event>, answer: Message, j: nat) returns (t: System, stored: Message)
    requires Increasing(log) && log != [] && About(log, "r") == log && Telling(log, log, "r", Reply)
    requires Told(log, "r").Some? && answer.head.id == "r"
    requires 1 <= j <= |log| && Told(log[..j], "r").Some? && Mirrors(answer, Told(log[..j], "r").value)
    ensures stored == Told(log, "r").value
    ensures Race(log, [], [Accept(Question, answer, "run")] + CatchUp(|log|), t, log, "r", Reply, stored)
    ensures Lookup(t.client.messages, "r") == FoldRecord(Some(answer), log, "r")
  {
    var s, accept, actions := Selected(log, []), Accept(Question, answer, "run"), CatchUp(|log|);
    t, stored := Run(s, [accept] + actions), Told(log, "r").value;
    RunAppend(s, [accept], actions);
    AnswerStep(s, [], answer);
    assert [] + [accept] == [accept];
    AnswerKeeps(s, answer);
    FirstRead(Step(s, accept), answer, log);
    CatchUpPlain(|log|);
    StreamAfterAnswer(s, answer, actions, log, j);
    RaceSetting(log, [accept] + actions, t);
  }

  lemma {:induction false} StreamAfterAnswer(
    s: System, answer: Message, actions: seq<Action>, whole: seq<Event>, j: nat)
    requires Without(actions, true, true) && answer.head.id == "r"
    requires 1 <= j <= |whole| && Told(whole[..j], "r").Some? && Mirrors(answer, Told(whole[..j], "r").value)
    ensures AllPictures(UpdatesOf(s, [Accept(Question, answer, "run")] + actions), whole, "r")
    ensures LoadsUnique(UpdatesOf(s, [Accept(Question, answer, "run")] + actions))
  {
    var a := Accept(Question, answer, "run");
    if actions == [] {
      AnswerStep(s, [], answer);
      assert [] + [a] == [a] && [a] + actions == [a];
      AnswerStream([], Question, answer, whole, j);
    } else {
      var front, last := actions[..|actions| - 1], actions[|actions| - 1];
      assert [a] + actions == ([a] + front) + [last];
      StreamAfterAnswer(s, answer, front, whole, j);
      UpdatesPush(s, [a] + front, last);
      PlainUpdates(Run(s, [a] + front), last);
    }
  }

  lemma PlainUpdates(s: System, a: Action)
    requires !a.Load? && !a.Accept?
    ensures AllSocket(Updates(s, a))
  {
  }

  lemma {:induction false} FirstRead(first: System, answer: Message, log: seq<Event>)
    requires Increasing(log) && answer.head.id == "r"
    requires first == Step(Selected(log, []), Accept(Question, answer, "run"))
    ensures var t := Run(first, CatchUp(|log|));
            t.log == log && Applied(t) == |log| && AllSocket(UpdatesOf(first, CatchUp(|log|))) &&
            Lookup(t.client.messages, "r") == FoldRecord(Some(answer), log, "r")
  {
    AnswerShown(Selected(log, []).client, Question, answer);
    ReadFrom(first);
    CatchUpPlain(|log|);
    SocketStream(first, CatchUp(|log|));
    FoldIsPerMessage(first.client.messages, log, "r");
  }

  lemma {:induction false} ReadFrom(s: System)
    requires Increasing(s.log) && s.client.lastSequence == 0 && s.link == None
    ensures var t := Run(s, CatchUp(|s.log|));
            Valid(s) && t.log == s.log && Applied(t) == |s.log| && t.client.messages == Fold(s.client.messages, s.log)
  {
    CoveredUnique(s.log, 0, 0);
    CatchUpReaches(s, |s.log|);
    CatchUpPlain(|s.log|);
    SocketRun(s, CatchUp(|s.log|), Run(s, CatchUp(|s.log|)));
    assert s.log[0..|s.log|] == s.log;
  }

  /** The answer to a resent message is ahead of the socket, and the run is cancelled: doubled for good. */
  lemma {:induction false} DoubledText() returns (t: System, stored: Message)
    ensures Race(DoubledLog, [], [Accept(Question, Grown, "run")] + CatchUp(3), t, DoubledLog, "r", Reply, stored)
    ensures stored.head.content == "a" && Lookup(t.client.messages, "r").Some?
    ensures Lookup(t.client.messages, "r").value.head.content == "aa"
  {
    DoubledTelling();
    DoubledRecord();
    t, stored := AnswerFirst(DoubledLog, Grown, 2);
    assert "" + "a" == "a";
  }

  // ---------------------------------------------------------------- a stale history page

  const Done := Message(Reply.head.(status := Completed), Reply.parts)

  const DoneLog := [Creation(Reply, 1)] + [Finish(Done, 2)]

  lemma DoneTold()
    ensures Told(DoneLog, "r") == Some(Done) && LastTouch(DoneLog, 1, "r")
    ensures Classify(DoneLog[1]) == Put(Incoming(Done.head, Some(Done.parts)))
  {
    assert [] + [Creation(Reply, 1)] == [Creation(Reply, 1)];
    RecordPush(None, [], Creation(Reply, 1), "r");
    RecordPush(None, [Creation(Reply, 1)], Finish(Done, 2), "r");
  }

  lemma ReadDone(s: System)
    requires s == Run(Selected(DoneLog, []), CatchUp(2))
    ensures Valid(s) && s.log == DoneLog && Applied(s) == 2 && Lookup(s.client.messages, "r") == Told(DoneLog, "r")
  {
    ReadAll(DoneLog, []);
    FoldIsPerMessage([], DoneLog, "r");
  }

  /** A page loaded before the reply existed and delivered after it finished: the reply is gone. */
  lemma {:induction false} StalePage() returns (s: System, t: System)
    ensures Valid(s) && s.log == DoneLog && Applied(s) == 2 && t == Run(Step(s, Load([])), [])
    ensures Applied(t) == |t.log| && LastTouch(t.log[..Applied(t)], 1, "r")
    ensures Classify(t.log[1]) == Put(Incoming(Done.head, Some(Done.parts)))
    ensures Lookup(s.client.messages, "r") == Some(Done) && Lookup(t.client.messages, "r") == None
  {
    s := Run(Selected(DoneLog, []), CatchUp(2));
    t := Step(s, Load([]));
    ReadDone(s);
    LoadKeeps(s, []);
    DoneTold();
    assert t.log[..Applied(t)] == DoneLog;
  }
}
