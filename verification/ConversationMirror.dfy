/**
End to end: any sequence of repository operations, observed through any run of the replication
protocol, leaves a caught-up browser showing the stored conversation.
*/
module ConversationMirror {
  import opened Wrappers
  import opened ChatEvents
  import opened ChatReducerProofs
  import opened ChatRace
  import opened ChatClient
  import opened ChatProtocol
  import opened ChatRuns
  import opened ConversationLog
  import opened ConversationStory

  datatype Operation =
    | BeginRun(draft: Draft, clock: int, at: int)
    | StartRun(runId: string, now: int, at: int)
    | AppendDelta(runId: string, delta: string, now: int, at: int)
    | CompleteRun(runId: string, suppress: bool, now: int, at: int)
    | FailRun(runId: string, errorCode: string, now: int, at: int)
    | CancelRun(runId: string, now: int, at: int)

  const EmptyStore := Store(map[], [], map[], map[], 0, [])

  /** What every operation needs to find the messages it names. */
  ghost predicate Ready(s: Store) {
    Indexed(s) && forall i :: 0 <= i < |s.order| ==> s.order[i] in s.messages
  }

  lemma {:induction false} ConsistentReady(s: Store)
    requires Consistent(s)
    ensures Ready(s)
  {
  }

  /** One operation; a draft whose identifiers are already taken cannot be drawn. */
  ghost function Serve(s: Store, op: Operation): Store
    requires Ready(s)
  {
    match op
    case BeginRun(d, clock, at) => if Fresh(s, d) then Begin(s, d, clock, at) else s
    case StartRun(runId, now, at) => Start(s, runId, now, at)
    case AppendDelta(runId, delta, now, at) => Delta(s, runId, delta, now, at)
    case CompleteRun(runId, suppress, now, at) => Complete(s, runId, suppress, now, at)
    case FailRun(runId, errorCode, now, at) => Fail(s, runId, errorCode, now, at)
    case CancelRun(runId, now, at) => Cancel(s, runId, now, at)
  }

  lemma {:induction false} ServeConsistent(s: Store, op: Operation)
    requires Consistent(s)
    ensures Ready(s) && Consistent(Serve(s, op))
  {
    ConsistentReady(s);
    match op
    case BeginRun(d, clock, at) => if Fresh(s, d) { BeginConsistent(s, d, clock, at); }
    case StartRun(runId, now, at) => StartConsistent(s, runId, now, at);
    case AppendDelta(runId, delta, now, at) => DeltaConsistent(s, runId, delta, now, at);
    case CompleteRun(runId, suppress, now, at) => CompleteConsistent(s, runId, suppress, now, at);
    case FailRun(runId, errorCode, now, at) => FailConsistent(s, runId, errorCode, now, at);
    case CancelRun(runId, now, at) => CancelConsistent(s, runId, now, at);
  }

  lemma BeginReady(s: Store, d: Draft, clock: int, at: int)
    requires Ready(s)
    ensures Ready(Begin(s, d, clock, at)) && s.events <= Begin(s, d, clock, at).events
  {
    if d.clientMessageId !in s.clientRuns && Sendable(d) {
      var now := NextMessageTime(s, clock);
      var first := Create(s, Trigger(d, now), at, d.runId);
      CreateReady(s, Trigger(d, now), at, d.runId);
      CreateReady(first, Response(d, now), at, d.runId);
    }
  }

  lemma CreateReady(s: Store, m: Message, at: int, runId: string)
    requires Ready(s)
    ensures Ready(Create(s, m, at, runId)) && s.events <= Create(s, m, at, runId).events
    ensures m.head.id in Create(s, m, at, runId).messages
  {
  }

  lemma RespondReady(s: Store, run: AgentRun, m: Message)
    requires Ready(s) && run.responseId in s.messages
    ensures Ready(Respond(s, run, m)) && Respond(s, run, m).events == s.events
  {
  }

  lemma {:induction false} ServeReady(s: Store, op: Operation)
    requires Ready(s)
    ensures Ready(Serve(s, op)) && s.events <= Serve(s, op).events
  {
    match op
    case BeginRun(d, clock, at) => BeginReady(s, d, clock, at);
    case StartRun(runId, now, at) =>
      if runId in s.runs {
        var run := s.runs[runId].(status := Running);
        RespondReady(s, run, WithStatus(s.messages[run.responseId], Streaming, now));
      }
    case AppendDelta(runId, delta, now, at) =>
      if runId in s.runs {
        RespondReady(s, s.runs[runId], WithDelta(s.messages[s.runs[runId].responseId], delta, now));
      }
    case CompleteRun(runId, suppress, now, at) =>
      if runId in s.runs {
        var run := s.runs[runId].(status := RunDone);
        RespondReady(s, run, WithStatus(s.messages[run.responseId], if suppress then Suppressed else Completed, now));
      }
    case FailRun(runId, errorCode, now, at) =>
      if runId in s.runs {
        var run := s.runs[runId].(status := RunBroken, errorCode := Some(errorCode));
        RespondReady(s, run, WithStatus(s.messages[run.responseId], Failed, now));
      }
    case CancelRun(runId, now, at) =>
      if runId in s.runs {
        var run := s.runs[runId].(status := RunAborted);
        RespondReady(s, run, WithStatus(s.messages[run.responseId], Cancelled, now));
      }
  }

  /** The store after a history of operations. */
  ghost function Served(ops: seq<Operation>): (s: Store)
    ensures Ready(s)
  {
    if ops == [] then
      EmptyStore
    else
      var before := Served(ops[..|ops| - 1]);
      ServeReady(before, ops[|ops| - 1]);
      Serve(before, ops[|ops| - 1])
  }

  /** Every operation that is possible takes place, and histories take place in order from an empty store. */
  lemma {:induction false} ServeActs(ops: seq<Operation>, op: Operation)
    ensures Served([]) == Store(map[], [], map[], map[], 0, [])
    ensures var s, t := Served(ops), Served(ops + [op]);
            match op
            case BeginRun(d, clock, at) =>
              Fresh(s, d) && d.attachments == [] && d.clientMessageId !in s.clientRuns ==>
                t.runs == s.runs[d.runId := AgentRun(d.runId, d.triggerId, d.responseId, Queued, None)]
            case StartRun(r, now, at) =>
              r in s.runs && s.runs[r].status == Queued ==>
                |t.events| == |s.events| + 1 && t.events[|s.events|].eventType == RunStarted
            case AppendDelta(r, delta, now, at) =>
              r in s.runs && s.runs[r].status == Running ==>
                |t.events| == |s.events| + 1 && t.events[|s.events|].payload.delta == Some(delta)
            case CompleteRun(r, suppress, now, at) =>
              r in s.runs && s.runs[r].status == Running ==>
                |t.events| == |s.events| + 2 &&
                t.events[|s.events|].eventType == (if suppress then MessageSuppressed else MessageCompleted)
            case FailRun(r, errorCode, now, at) =>
              r in s.runs && s.runs[r].status != RunAborted ==>
                |t.events| == |s.events| + 1 && t.events[|s.events|].eventType == RunFailed
            case CancelRun(r, now, at) =>
              r in s.runs && s.runs[r].status in {Queued, Running} ==>
                |t.events| == |s.events| + 1 && t.events[|s.events|].eventType == RunCancelled
  {
    assert (ops + [op])[..|ops|] == ops;
  }

  /** Every history of operations leaves a store that its own log reproduces. */
  lemma {:induction false} ServedConsistent(ops: seq<Operation>)
    ensures Consistent(Served(ops))
  {
    if ops != [] {
      ServedConsistent(ops[..|ops| - 1]);
      ServeConsistent(Served(ops[..|ops| - 1]), ops[|ops| - 1]);
    }
  }

  lemma {:induction false} ServeStoried(s: Store, op: Operation)
    requires Consistent(s) && Storied(s)
    ensures Ready(s) && Storied(Serve(s, op))
  {
    ConsistentReady(s);
    ConsistentLinked(s);
    match op
    case BeginRun(d, clock, at) => if Fresh(s, d) { BeginStoried(s, d, clock, at); }
    case StartRun(runId, now, at) => StartStoried(s, runId, now, at);
    case AppendDelta(runId, delta, now, at) => DeltaStoried(s, runId, delta, now, at);
    case CompleteRun(runId, suppress, now, at) => CompleteStoried(s, runId, suppress, now, at);
    case FailRun(runId, errorCode, now, at) => FailStoried(s, runId, errorCode, now, at);
    case CancelRun(runId, now, at) => CancelStoried(s, runId, now, at);
  }

  /** Every history of operations logs a story about each message. */
  lemma {:induction false} ServedStoried(ops: seq<Operation>)
    ensures Storied(Served(ops))
  {
    if ops != [] {
      ServedStoried(ops[..|ops| - 1]);
      ServedConsistent(ops[..|ops| - 1]);
      ServeStoried(Served(ops[..|ops| - 1]), ops[|ops| - 1]);
    }
  }

  /** The race theorems apply to every stored message, and its body block repeats its content. */
  lemma {:induction false} StoredStory(ops: seq<Operation>, id: string) returns (created: Message)
    requires id in Served(ops).messages
    ensures var whole, stored := About(Served(ops).events, id), Served(ops).messages[id];
            whole != [] && Origin(whole) == Some(created) && Telling(whole, whole, id, created) &&
            Told(Served(ops).events, id).Some? && Mirrors(stored, Told(Served(ops).events, id).value) &&
            Projected(stored)
  {
    var s := Served(ops);
    var whole := About(s.events, id);
    ServedStoried(ops);
    ServedConsistent(ops);
    assert StoryAt(s.events, s.messages.Keys, id);
    created := Origin(whole).value;
    StoredMirrors(s, id);
    AboutTouches(s.events, id);
    ToldAbout(s.events, id);
    ToldLooks(whole, id, created);
    PictureLooks(s.messages[id], Told(whole, id).value, created, Deltas(whole));
    LooksProjected(s.messages[id], created, Deltas(whole), s.messages[id].head.status);
  }

  lemma LooksProjected(m: Message, created: Message, text: string, status: Status)
    requires Projected(created) && Looks(m, created, text, status)
    ensures Projected(m)
  {
    var grown := ExtendBodies(created.parts, text, 0);
    forall i | 0 <= i < |m.parts| && IsBody(m.parts[i]) ensures m.parts[i].text == Some(m.head.content) {
      assert m.parts[i].(updatedAt := 0) == grown[i].(updatedAt := 0);
      assert IsBody(created.parts[i]) && created.parts[i].text == Some(created.head.content);
    }
  }

  /** What a browser shows of a store once nothing is left to apply. */
  lemma {:induction false} CaughtUpMirrors(ops: seq<Operation>, actions: seq<Action>, t: System)
    requires Without(actions, true, true) && t == Run(Selected([], []), actions)
    requires t.log == Served(ops).events && Applied(t) == |t.log|
    ensures ListMirrors(Served(ops), t.client.messages)
  {
    ServedConsistent(ops);
    ExactlyOnce([], [], actions);
    assert t.log[..|t.log|] == t.log;
  }

  /** A finished message is shown exactly as it is stored. */
  lemma {:induction false} FinishedMessagesEqual(
    ops: seq<Operation>, actions: seq<Action>, t: System, i: nat)
    requires Without(actions, true, true) && t == Run(Selected([], []), actions)
    requires t.log == Served(ops).events && Applied(t) == |t.log|
    requires i < |Served(ops).order| && Served(ops).order[i] in Served(ops).messages
    requires Served(ops).messages[Served(ops).order[i]].head.status in {Received, Completed, Suppressed}
    ensures |t.client.messages| == |Served(ops).order|
    ensures t.client.messages[i] == Served(ops).messages[Served(ops).order[i]]
  {
    CaughtUpMirrors(ops, actions, t);
  }

  // ---------------------------------------------------------------- every history can be shown

  function Appends(events: seq<Event>): seq<Action> {
    if events == [] then [] else Appends(events[..|events| - 1]) + [Append(events[|events| - 1])]
  }

  lemma {:induction false} AppendsPlain(events: seq<Event>)
    ensures Without(Appends(events), true, true)
  {
    if events != [] {
      AppendsPlain(events[..|events| - 1]);
    }
  }

  lemma AppendsPush(front: seq<Event>, last: Event)
    ensures Appends(front + [last]) == Appends(front) + [Append(last)]
  {
    assert (front + [last])[..|front|] == front;
  }

  /** Logging the events one by one logs them all. */
  ghost predicate Logs(events: seq<Event>) {
    Run(Selected([], []), Appends(events)) == Selected(events, [])
  }

  lemma {:induction false} AppendsStep(front: seq<Event>, last: Event)
    requires Logs(front) && last.sequence == |front| + 1
    requires front != [] ==> front[|front| - 1].sequence == |front|
    ensures Logs(front + [last])
  {
    AppendsPush(front, last);
    RunPush(Selected([], []), Appends(front), Append(last));
    AppendStep(front, last);
  }

  lemma {:induction false} AppendsNone()
    ensures Logs([])
  {
  }

  lemma {:induction false} AppendsRun(events: seq<Event>, n: nat)
    requires n <= |events| && forall i :: 0 <= i < |events| ==> events[i].sequence == i + 1
    ensures Logs(events[..n])
  {
    if n == 0 {
      AppendsNone();
      assert events[..0] == [];
    } else {
      AppendsRun(events, n - 1);
      AppendsStep(events[..n - 1], events[n - 1]);
      assert events[..n] == events[..n - 1] + [events[n - 1]];
    }
  }

  lemma AppendStep(log: seq<Event>, e: Event)
    requires e.sequence == |log| + 1 && (log != [] ==> log[|log| - 1].sequence == |log|)
    ensures Step(Selected(log, []), Append(e)) == Selected(log + [e], [])
  {
  }

  /** For every history of operations there is a run after which the browser mirrors the store. */
  lemma {:induction false} StoreCanBeShown(ops: seq<Operation>) returns (actions: seq<Action>, t: System)
    ensures Without(actions, true, true) && t == Run(Selected([], []), actions)
    ensures t.log == Served(ops).events && Applied(t) == |t.log|
    ensures ListMirrors(Served(ops), t.client.messages)
  {
    var events := Served(ops).events;
    var s := Selected(events, []);
    ServedConsistent(ops);
    AppendsRun(events, |events|);
    assert events[..|events|] == events;
    AppendsPlain(events);
    SelectedValid(events, []);
    CatchUpReaches(s, |events|);
    CatchUpPlain(|events|);
    actions := Appends(events) + CatchUp(|events|);
    RunAppend(Selected([], []), Appends(events), CatchUp(|events|));
    t := Run(s, CatchUp(|events|));
    CaughtUpMirrors(ops, actions, t);
  }

  // ---------------------------------------------------------------- sessions with pages and answers

  /** The store held `m` after the first `q` operations. */
  ghost predicate StoredAt(ops: seq<Operation>, q: nat, m: Message)
    requires q <= |ops|
  {
    m.head.id in Served(ops[..q]).messages && Served(ops[..q]).messages[m.head.id] == m
  }

  ghost predicate ServedPage(ops: seq<Operation>, q: nat, items: seq<Message>)
    requires q <= |ops|
  {
    UniqueIds(items) && forall i :: 0 <= i < |items| ==> StoredAt(ops, q, items[i])
  }

  /** Pages and answers carry what the store held at some moment; a page may leave messages out. */
  ghost predicate ServedAction(ops: seq<Operation>, a: Action) {
    match a
    case Load(items) => exists q :: 0 <= q <= |ops| && ServedPage(ops, q, items)
    case Accept(user, response, _) =>
      exists q :: 0 <= q <= |ops| && StoredAt(ops, q, user) && StoredAt(ops, q, response)
    case _ => true
  }

  ghost predicate ServedSession(ops: seq<Operation>, actions: seq<Action>) {
    forall k :: 0 <= k < |actions| ==> ServedAction(ops, actions[k])
  }

  lemma {:induction false} ServedGrows(ops: seq<Operation>, q: nat)
    requires q <= |ops|
    ensures Served(ops[..q]).events <= Served(ops).events
  {
    if q == |ops| {
      assert ops[..q] == ops;
    } else {
      var front := ops[..|ops| - 1];
      assert front[..q] == ops[..q];
      ServedGrows(front, q);
      ServeReady(Served(front), ops[|ops| - 1]);
    }
  }

  lemma {:induction false} PrefixPicture(past: seq<Event>, all: seq<Event>, m: Message, log: seq<Event>, id: string)
    requires past <= all && About(past, id) != [] && Told(past, id).Some? && Mirrors(m, Told(past, id).value)
    ensures Pictures(m, About(all, id), id)
    ensures |log| <= |About(past, id)| ==> NotOlder(m, log, About(all, id), id)
  {
    assert all == past + all[|past|..];
    AboutAppend(past, all[|past|..], id);
    ToldAbout(past, id);
    assert About(all, id)[..|About(past, id)|] == About(past, id);
  }

  /** A stored message is a picture of its story, no older than any log the store had by then. */
  lemma {:induction false} StoredPicture(ops: seq<Operation>, q: nat, m: Message, log: seq<Event>)
    requires q <= |ops| && StoredAt(ops, q, m)
    ensures Pictures(m, About(Served(ops).events, m.head.id), m.head.id)
    ensures |log| <= |About(Served(ops[..q]).events, m.head.id)| ==>
              NotOlder(m, log, About(Served(ops).events, m.head.id), m.head.id)
  {
    ServedConsistent(ops[..q]);
    StoredMirrors(Served(ops[..q]), m.head.id);
    ServedGrows(ops, q);
    PrefixPicture(Served(ops[..q]).events, Served(ops).events, m, log, m.head.id);
  }

  lemma {:induction false} LookupPicture(ops: seq<Operation>, q: nat, items: seq<Message>, id: string)
    requires q <= |ops| && ServedPage(ops, q, items)
    ensures Lookup(items, id).Some? ==>
              StoredAt(ops, q, Lookup(items, id).value) && Lookup(items, id).value.head.id == id
  {
    LookupMember(items, id);
    if Lookup(items, id).Some? {
      var m := Lookup(items, id).value;
      var i :| 0 <= i < |items| && items[i] == m;
    }
  }

  lemma {:induction false} PagePicture(ops: seq<Operation>, q: nat, items: seq<Message>, id: string)
    requires q <= |ops| && ServedPage(ops, q, items)
    ensures BringsPictures(FromLoad(items), About(Served(ops).events, id), id)
  {
    LookupPicture(ops, q, items, id);
    if Lookup(items, id).Some? {
      StoredPicture(ops, q, Lookup(items, id).value, []);
    }
  }

  lemma {:induction false} AnswerPicture(
    ops: seq<Operation>, q: nat, m: Message, runId: string, sequence: nat, id: string)
    requires q <= |ops| && StoredAt(ops, q, m)
    ensures BringsPictures(FromAccept(AcceptEvent(m, runId, sequence)), About(Served(ops).events, id), id)
  {
    StoredPicture(ops, q, m, []);
  }

  lemma {:induction false} AcceptPictures(ops: seq<Operation>, s: System, a: Action, id: string)
    requires a.Accept? && ServedAction(ops, a)
    ensures AllPictures(Updates(s, a), About(Served(ops).events, id), id)
  {
    var q :| 0 <= q <= |ops| && StoredAt(ops, q, a.user) && StoredAt(ops, q, a.response);
    AnswerPicture(ops, q, a.user, a.runId, MAX_SAFE_INTEGER - 1, id);
    AnswerPicture(ops, q, a.response, a.runId, MAX_SAFE_INTEGER, id);
  }

  lemma {:induction false} LoadPictures(ops: seq<Operation>, s: System, a: Action, id: string)
    requires a.Load? && ServedAction(ops, a)
    ensures AllPictures(Updates(s, a), About(Served(ops).events, id), id) && LoadsUnique(Updates(s, a))
  {
    var q :| 0 <= q <= |ops| && ServedPage(ops, q, a.items);
    PagePicture(ops, q, a.items, id);
  }

  lemma {:induction false} UpdatePictures(ops: seq<Operation>, s: System, a: Action, id: string)
    requires ServedAction(ops, a)
    ensures AllPictures(Updates(s, a), About(Served(ops).events, id), id) && LoadsUnique(Updates(s, a))
  {
    if a.Load? {
      LoadPictures(ops, s, a, id);
    } else if a.Accept? {
      AcceptPictures(ops, s, a, id);
    }
  }

  lemma {:induction false} SessionPictures(ops: seq<Operation>, s: System, actions: seq<Action>, id: string)
    requires ServedSession(ops, actions)
    ensures AllPictures(UpdatesOf(s, actions), About(Served(ops).events, id), id) && LoadsUnique(UpdatesOf(s, actions))
  {
    if actions != [] {
      var front, last := actions[..|actions| - 1], actions[|actions| - 1];
      SessionPictures(ops, s, front, id);
      UpdatePictures(ops, Run(s, front), last, id);
    }
  }

  /**
  The exact end-to-end theorem: in every session in which the browser has caught up, with history
  pages and answers of the store arriving at any moment, a message is shown as it is stored if and
  only if its standing is in step.
  */
  lemma {:induction false} SessionMirrors(ops: seq<Operation>, actions: seq<Action>, t: System, id: string)
    returns (created: Message)
    requires ServedSession(ops, actions) && t == Run(Selected([], []), actions)
    requires t.log == Served(ops).events && Applied(t) == |t.log| && id in Served(ops).messages
    ensures Origin(About(Served(ops).events, id)) == Some(created)
    ensures var shown, stored := Lookup(t.client.messages, id), Served(ops).messages[id];
            shown.Some? && Mirrors(stored, shown.value) <==>
            InStep(Stands(UpdatesOf(Selected([], []), actions), id, created), stored.head.status)
  {
    created := StoredStory(ops, id);
    SessionPictures(ops, Selected([], []), actions, id);
    assert t.log[..|t.log|] == t.log;
    ProtocolRace([], [], actions, t, About(t.log, id), id, created, Served(ops).messages[id]);
  }

  /** A page not older than what the browser has applied; an answer that is not, or still says processing. */
  ghost predicate TimelyAction(ops: seq<Operation>, before: System, a: Action, id: string) {
    match a
    case Load(items) =>
      exists q :: 0 <= q <= |ops| && ServedPage(ops, q, items) && |Served(ops[..q]).events| >= Applied(before) &&
        (id in Served(ops[..q]).messages ==> Lookup(items, id).Some?)
    case Accept(user, response, _) => TimelyAnswer(ops, before, user, id) && TimelyAnswer(ops, before, response, id)
    case _ => true
  }

  ghost predicate TimelyAnswer(ops: seq<Operation>, before: System, m: Message, id: string) {
    m.head.id == id && m.head.status != Processing ==>
      exists q :: 0 <= q <= |ops| && StoredAt(ops, q, m) && |Served(ops[..q]).events| >= Applied(before)
  }

  ghost predicate TimelySession(ops: seq<Operation>, actions: seq<Action>, id: string) {
    forall k :: 0 <= k < |actions| ==> TimelyAction(ops, Run(Selected([], []), actions[..k]), actions[k], id)
  }

  lemma {:induction false} AboutGrows(log: seq<Event>, longer: seq<Event>, id: string)
    requires log <= longer
    ensures About(log, id) <= About(longer, id)
  {
    assert longer == log + longer[|log|..];
    AboutAppend(log, longer[|log|..], id);
  }

  /** A message stored when the log had reached what is applied now. */
  lemma {:induction false} StoredNotOlder(ops: seq<Operation>, q: nat, m: Message, n: nat)
    requires q <= |ops| && StoredAt(ops, q, m) && n <= |Served(ops[..q]).events|
    ensures n <= |Served(ops).events|
    ensures var whole := About(Served(ops).events, m.head.id);
            NotOlder(m, About(Served(ops).events[..n], m.head.id), whole, m.head.id)
  {
    var past := Served(ops[..q]).events;
    ServedGrows(ops, q);
    assert Served(ops).events[..n] == past[..n];
    AboutGrows(past[..n], past, m.head.id);
    StoredPicture(ops, q, m, About(past[..n], m.head.id));
  }

  lemma {:induction false} NothingStored(ops: seq<Operation>, q: nat, n: nat, id: string)
    requires q <= |ops| && id !in Served(ops[..q]).messages && n <= |Served(ops[..q]).events|
    ensures n <= |Served(ops).events| && About(Served(ops).events[..n], id) == []
  {
    var past := Served(ops[..q]).events;
    ServedGrows(ops, q);
    ServedStoried(ops[..q]);
    assert StoryAt(past, Served(ops[..q]).messages.Keys, id);
    assert Served(ops).events[..n] == past[..n];
    AboutGrows(past[..n], past, id);
  }

  lemma {:induction false} LoadTimely(ops: seq<Operation>, before: System, items: seq<Message>, id: string)
    requires TimelyAction(ops, before, Load(items), id) && Applied(before) <= |Served(ops).events|
    ensures Timely(FromLoad(items), About(Served(ops).events[..Applied(before)], id), About(Served(ops).events, id), id)
  {
    var q :| 0 <= q <= |ops| && ServedPage(ops, q, items) && |Served(ops[..q]).events| >= Applied(before) &&
      (id in Served(ops[..q]).messages ==> Lookup(items, id).Some?);
    LookupPicture(ops, q, items, id);
    if Lookup(items, id).Some? {
      StoredNotOlder(ops, q, Lookup(items, id).value, Applied(before));
    } else {
      NothingStored(ops, q, Applied(before), id);
    }
  }

  lemma {:induction false} AnswerTimely(
    ops: seq<Operation>, before: System, m: Message, runId: string, sequence: nat, id: string)
    requires TimelyAnswer(ops, before, m, id) && Applied(before) <= |Served(ops).events|
    ensures Timely(FromAccept(AcceptEvent(m, runId, sequence)), About(Served(ops).events[..Applied(before)], id),
                   About(Served(ops).events, id), id)
  {
    if m.head.id == id && m.head.status != Processing {
      var q :| 0 <= q <= |ops| && StoredAt(ops, q, m) && |Served(ops[..q]).events| >= Applied(before);
      StoredNotOlder(ops, q, m, Applied(before));
    }
  }

  lemma TimelyPush(stream: seq<Arrival>, a: Arrival, whole: seq<Event>, id: string)
    requires AllTimely(stream, whole, id) && Timely(a, About(Logged(stream), id), whole, id)
    ensures AllTimely(stream + [a], whole, id)
  {
    var after := stream + [a];
    forall k | 0 <= k < |after| ensures Timely(after[k], About(Logged(after[..k]), id), whole, id) {
      if k < |stream| {
        assert after[..k] == stream[..k];
      } else {
        assert after[..k] == stream;
      }
    }
  }

  /** Where a session without its last action stands. */
  lemma {:induction false} SessionBefore(ops: seq<Operation>, actions: seq<Action>)
    requires actions != [] && Run(Selected([], []), actions).log <= Served(ops).events
    ensures var s, front := Selected([], []), actions[..|actions| - 1];
            Valid(Run(s, front)) && Run(s, front).log <= Served(ops).events &&
            Applied(Run(s, front)) <= |Served(ops).events| &&
            Logged(UpdatesOf(s, front)) == Served(ops).events[..Applied(Run(s, front))]
  {
    var s, front := Selected([], []), actions[..|actions| - 1];
    SelectedValid([], []);
    RunIsStream(s, front);
    ValidStep(Run(s, front), actions[|actions| - 1]);
  }

  lemma {:induction false} StreamTimely(ops: seq<Operation>, actions: seq<Action>, id: string)
    requires TimelySession(ops, actions, id) && Run(Selected([], []), actions).log <= Served(ops).events
    ensures AllTimely(UpdatesOf(Selected([], []), actions), About(Served(ops).events, id), id)
  {
    if actions != [] {
      var front := actions[..|actions| - 1];
      SessionBefore(ops, actions);
      TimelyEarlier(ops, actions, id);
      StreamTimely(ops, front, id);
      TimelyUpdates(ops, Run(Selected([], []), front), actions[|actions| - 1], UpdatesOf(Selected([], []), front), id);
    }
  }

  lemma TimelyEarlier(ops: seq<Operation>, actions: seq<Action>, id: string)
    requires actions != [] && TimelySession(ops, actions, id)
    ensures TimelySession(ops, actions[..|actions| - 1], id)
    ensures TimelyAction(ops, Run(Selected([], []), actions[..|actions| - 1]), actions[|actions| - 1], id)
  {
    var front := actions[..|actions| - 1];
    forall k | 0 <= k < |front| ensures TimelyAction(ops, Run(Selected([], []), front[..k]), front[k], id) {
      assert front[..k] == actions[..k] && front[k] == actions[k];
    }
  }

  lemma {:induction false} TimelyUpdates(
    ops: seq<Operation>, before: System, a: Action, stream: seq<Arrival>, id: string)
    requires TimelyAction(ops, before, a, id) && Applied(before) <= |Served(ops).events|
    requires Logged(stream) == Served(ops).events[..Applied(before)]
    requires AllTimely(stream, About(Served(ops).events, id), id)
    ensures AllTimely(stream + Updates(before, a), About(Served(ops).events, id), id)
  {
    var whole, more := About(Served(ops).events, id), Updates(before, a);
    match a
    case Load(items) =>
      LoadTimely(ops, before, items, id);
      TimelyPush(stream, FromLoad(items), whole, id);
    case Accept(user, response, runId) =>
      AnswerTimely(ops, before, user, runId, MAX_SAFE_INTEGER - 1, id);
      AnswerTimely(ops, before, response, runId, MAX_SAFE_INTEGER, id);
      var one := stream + [more[0]];
      TimelyPush(stream, more[0], whole, id);
      assert one[..|stream|] == stream;
      TimelyPush(one, more[1], whole, id);
      assert stream + more == one + [more[1]];
    case Deliver =>
      if more == [] {
        assert stream + more == stream;
      } else {
        TimelyPush(stream, more[0], whole, id);
      }
    case _ =>
      assert stream + more == stream;
  }

  /**
  Ordinary sessions: when no page and no answer is older than what the browser has applied, every
  finished message is shown exactly as it is stored.
  */
  lemma {:induction false} FinishedShown(ops: seq<Operation>, actions: seq<Action>, t: System, id: string)
    requires ServedSession(ops, actions) && t == Run(Selected([], []), actions) && TimelySession(ops, actions, id)
    requires t.log == Served(ops).events && Applied(t) == |t.log| && id in Served(ops).messages
    requires Finished(Served(ops).messages[id].head.status)
    ensures Lookup(t.client.messages, id) == Some(Served(ops).messages[id])
  {
    var created := StoredStory(ops, id);
    var whole, stream := About(t.log, id), UpdatesOf(Selected([], []), actions);
    SelectedValid([], []);
    RunIsStream(Selected([], []), actions);
    assert t.log[0..Applied(t)] == t.log;
    SessionPictures(ops, Selected([], []), actions, id);
    StreamTimely(ops, actions, id);
    ToldAbout(t.log, id);
    FinishedStands(stream, whole, id, created);
    var c := SessionMirrors(ops, actions, t, id);
  }

  // ---------------------------------------------------------------- the list as a whole

  /** When a stored message was created; a message keeps its creation time for good. */
  ghost function Birth(ops: seq<Operation>): string -> int {
    id => if id in Served(ops).messages then Served(ops).messages[id].head.createdAt else 0
  }

  lemma {:induction false} StoryKeepsBirth(log: seq<Event>, id: string, created: Message, e: Event)
    requires Telling(log, log, id, created) && e in log && Classify(e).Put?
    ensures Classify(e).incoming.head.createdAt == created.head.createdAt
  {
    var i :| 0 <= i < |log| && log[i] == e;
    StoryPrefix(log, created, i + 1);
    var before := log[..i + 1];
    assert before[i] == e && before[..i] == log[..i];
  }

  lemma {:induction false} AboutMember(events: seq<Event>, e: Event, id: string)
    requires e in events && Touches(e, id)
    ensures e in About(events, id)
  {
    if e != events[|events| - 1] {
      assert events == events[..|events| - 1] + [events[|events| - 1]];
      AboutMember(events[..|events| - 1], e, id);
    }
  }

  /** A logged payload is about a stored message and carries its creation time. */
  lemma {:induction false} LoggedBirth(ops: seq<Operation>, e: Event)
    requires e in Served(ops).events && Classify(e).Put?
    ensures var id := Classify(e).incoming.head.id; id in Served(ops).messages && KeepsBirth(e, Birth(ops))
  {
    var s, id := Served(ops), Classify(e).incoming.head.id;
    AboutMember(s.events, e, id);
    ServedStoried(ops);
    assert StoryAt(s.events, s.messages.Keys, id);
    var created := StoredStory(ops, id);
    StoryKeepsBirth(About(s.events, id), id, created, e);
    StoredCreation(ops, id, created);
  }

  lemma {:induction false} StoredCreation(ops: seq<Operation>, id: string, created: Message)
    requires id in Served(ops).messages && Origin(About(Served(ops).events, id)) == Some(created)
    ensures Served(ops).messages[id].head.createdAt == created.head.createdAt
  {
    var c := StoredStory(ops, id);
    var whole := About(Served(ops).events, id);
    ToldAbout(Served(ops).events, id);
    ToldLooks(whole, id, created);
  }

  /** A message stored at any moment is stored in the end, with the same creation time. */
  lemma {:induction false} EarlierBirth(ops: seq<Operation>, q: nat, m: Message)
    requires q <= |ops| && StoredAt(ops, q, m)
    ensures m.head.id in Served(ops).messages && m.head.createdAt == Birth(ops)(m.head.id)
  {
    var id := m.head.id;
    var past, all := Served(ops[..q]).events, Served(ops).events;
    var created := StoredStory(ops[..q], id);
    StoredCreation(ops[..q], id, created);
    ServedGrows(ops, q);
    AboutGrows(past, all, id);
    ServedStoried(ops);
    assert StoryAt(all, Served(ops).messages.Keys, id);
    assert About(all, id)[0] == About(past, id)[0];
    StoredCreation(ops, id, created);
  }

  /** The list holds stored messages only, each with its creation time. */
  ghost predicate Known(ops: seq<Operation>, messages: seq<Message>) {
    BornAt(messages, Birth(ops)) && forall m :: m in messages ==> m.head.id in Served(ops).messages
  }

  /** Every message of the next list is one of this list, updated, or the new one. */
  lemma {:induction false} ApplyFrom(messages: seq<Message>, e: Event, m: Message)
    requires m in Apply(messages, e)
    ensures (Classify(e).Put? && m.head == Classify(e).incoming.head) ||
            exists x :: x in messages && x.head.id == m.head.id && x.head.createdAt == m.head.createdAt
  {
    var effect := Classify(e);
    if effect.Put? && !HasId(messages, effect.incoming.head.id) {
      StableSortMembers(messages + [WithFallbackPart(effect.incoming)], m);
    } else {
      var i :| 0 <= i < |messages| && m == UpdateAll(messages, effect)[i];
      assert messages[i] in messages;
    }
  }

  lemma {:induction false} ApplyKnown(ops: seq<Operation>, messages: seq<Message>, e: Event)
    requires Known(ops, messages) && UniqueIds(messages) && KeepsBirth(e, Birth(ops))
    requires Classify(e).Put? ==> Classify(e).incoming.head.id in Served(ops).messages
    ensures Known(ops, Apply(messages, e)) && UniqueIds(Apply(messages, e))
    ensures SortedByCreation(messages) ==> SortedByCreation(Apply(messages, e))
  {
    ApplyUnique(messages, e);
    if SortedByCreation(messages) {
      OrderStep(messages, e, Birth(ops));
    }
    forall m | m in Apply(messages, e)
      ensures m.head.createdAt == Birth(ops)(m.head.id) && m.head.id in Served(ops).messages
    {
      ApplyFrom(messages, e, m);
    }
  }

  lemma {:induction false} AnswerKnown(
    ops: seq<Operation>, messages: seq<Message>, q: nat, m: Message, runId: string, sequence: nat)
    requires q <= |ops| && StoredAt(ops, q, m) && Known(ops, messages) && UniqueIds(messages)
    ensures var after := Apply(messages, AcceptEvent(m, runId, sequence));
            Known(ops, after) && UniqueIds(after) && (SortedByCreation(messages) ==> SortedByCreation(after))
  {
    EarlierBirth(ops, q, m);
    ApplyKnown(ops, messages, AcceptEvent(m, runId, sequence));
  }

  ghost predicate SortedPages(actions: seq<Action>) {
    forall k :: 0 <= k < |actions| && actions[k].Load? ==> SortedByCreation(actions[k].items)
  }

  lemma {:induction false} KnownStep(ops: seq<Operation>, s: System, a: Action)
    requires Valid(s) && s.log <= Served(ops).events && ServedAction(ops, a)
    requires Known(ops, s.client.messages) && UniqueIds(s.client.messages)
    ensures var after := Step(s, a).client.messages;
            Known(ops, after) && UniqueIds(after) &&
            (SortedByCreation(s.client.messages) && (a.Load? ==> SortedByCreation(a.items)) ==> SortedByCreation(after))
  {
    match a
    case Deliver =>
      if s.link.Some? && s.link.value.queue != [] {
        DeliverStep(s);
        if s.link.value.queue[0] == Entry(Applied(s)) {
          LoggedKnown(ops, s.client.messages, s.log[Applied(s)]);
        }
      }
    case Load(items) =>
      var q :| 0 <= q <= |ops| && ServedPage(ops, q, items);
      PageKnown(ops, q, items);
    case Accept(user, response, runId) =>
      var q :| 0 <= q <= |ops| && StoredAt(ops, q, user) && StoredAt(ops, q, response);
      AnswerKnown(ops, s.client.messages, q, user, runId, MAX_SAFE_INTEGER - 1);
      AnswerKnown(ops, Apply(s.client.messages, AcceptEvent(user, runId, MAX_SAFE_INTEGER - 1)), q, response, runId,
                  MAX_SAFE_INTEGER);
    case _ =>
  }

  lemma {:induction false} LoggedKnown(ops: seq<Operation>, messages: seq<Message>, e: Event)
    requires e in Served(ops).events && Known(ops, messages) && UniqueIds(messages)
    ensures Known(ops, Apply(messages, e)) && UniqueIds(Apply(messages, e))
    ensures SortedByCreation(messages) ==> SortedByCreation(Apply(messages, e))
  {
    if Classify(e).Put? {
      LoggedBirth(ops, e);
    }
    ApplyKnown(ops, messages, e);
  }

  lemma {:induction false} PageKnown(ops: seq<Operation>, q: nat, items: seq<Message>)
    requires q <= |ops| && ServedPage(ops, q, items)
    ensures Known(ops, items)
  {
    forall m | m in items ensures m.head.createdAt == Birth(ops)(m.head.id) && m.head.id in Served(ops).messages {
      EarlierBirth(ops, q, m);
    }
  }

  /**
  The whole list of every session, with pages and answers of the store at any moment: no message
  twice, none that is not stored, and in creation order whenever the pages are.
  */
  lemma {:induction false} SessionListed(ops: seq<Operation>, actions: seq<Action>)
    requires ServedSession(ops, actions) && Run(Selected([], []), actions).log <= Served(ops).events
    ensures var shown := Run(Selected([], []), actions).client.messages;
            Known(ops, shown) && UniqueIds(shown) && (SortedPages(actions) ==> SortedByCreation(shown))
  {
    if actions != [] {
      var front, last := actions[..|actions| - 1], actions[|actions| - 1];
      var before := Run(Selected([], []), front);
      SelectedValid([], []);
      ValidRun(Selected([], []), front);
      ValidStep(before, last);
      SessionListed(ops, front);
      KnownStep(ops, before, last);
    }
  }

  // ---------------------------------------------------------------- a completed run that fails

  lemma ServedPush(ops: seq<Operation>, op: Operation)
    ensures Served(ops + [op]) == Serve(Served(ops), op)
  {
    assert (ops + [op])[..|ops|] == ops;
  }

  /** Completed answers can still be marked failed: the run's status is not checked. */
  lemma CompletedRunFails(s: Store, runId: string, errorCode: string, now: int, at: int)
    requires Indexed(s) && runId in s.runs && s.runs[runId].status == RunDone && s.runs[runId].id == runId
    requires s.messages[s.runs[runId].responseId].head.id == s.runs[runId].responseId
    ensures var t := Fail(s, runId, errorCode, now, at);
            runId in t.runs && t.runs[runId].status == RunBroken && s.runs[runId].responseId in t.messages &&
            t.messages[s.runs[runId].responseId].head.status == Failed
  {
  }

  const OneDraft := Draft("k", "?", "c", "u", "a", "q", "r", "n", "pq", "pr", [])

  const OneRun := [BeginRun(OneDraft, 0, 0)] + [StartRun("n", 1, 1)] + [CompleteRun("n", false, 2, 2)]

  ghost predicate RunIs(s: Store, status: RunStatus) {
    "n" in s.runs && s.runs["n"].id == "n" && s.runs["n"].status == status && s.runs["n"].responseId == "r" &&
    "r" in s.messages && s.messages["r"].head.id == "r"
  }

  lemma {:induction false} OneRunBegins()
    ensures RunIs(Served([BeginRun(OneDraft, 0, 0)]), Queued)
  {
    assert [] + [BeginRun(OneDraft, 0, 0)] == [BeginRun(OneDraft, 0, 0)];
    ServedPush([], BeginRun(OneDraft, 0, 0));
    assert Fresh(EmptyStore, OneDraft) && Sendable(OneDraft);
  }

  lemma RunMoves(s: Store)
    requires Ready(s)
    ensures RunIs(s, Queued) ==> RunIs(Start(s, "n", 1, 1), Running)
    ensures RunIs(s, Running) ==> RunIs(Complete(s, "n", false, 2, 2), RunDone) &&
                                  Complete(s, "n", false, 2, 2).messages["r"].head.status == Completed
  {
  }

  lemma {:induction false} OneRunStarts(before: seq<Operation>)
    requires RunIs(Served(before), Queued)
    ensures RunIs(Served(before + [StartRun("n", 1, 1)]), Running)
  {
    ServedPush(before, StartRun("n", 1, 1));
    RunMoves(Served(before));
  }

  lemma {:induction false} OneRunCompletes(before: seq<Operation>)
    requires RunIs(Served(before), Running)
    ensures var s := Served(before + [CompleteRun("n", false, 2, 2)]);
            RunIs(s, RunDone) && s.messages["r"].head.status == Completed
  {
    ServedPush(before, CompleteRun("n", false, 2, 2));
    RunMoves(Served(before));
  }

  lemma {:induction false} OneRunFails(before: seq<Operation>)
    requires RunIs(Served(before), RunDone)
    ensures var t := Served(before + [FailRun("n", "late", 3, 3)]);
            "r" in t.messages && t.messages["r"].head.status == Failed
  {
    ServedPush(before, FailRun("n", "late", 3, 3));
    CompletedRunFails(Served(before), "n", "late", 3, 3);
  }

  /** A history that ends with a completed message, which one more operation fails. */
  lemma {:induction false} FailedAfterCompletion()
    ensures var s, t := Served(OneRun), Served(OneRun + [FailRun("n", "late", 3, 3)]);
            "r" in s.messages && s.messages["r"].head.status == Completed &&
            "r" in t.messages && t.messages["r"].head.status == Failed
  {
    OneRunBegins();
    OneRunStarts([BeginRun(OneDraft, 0, 0)]);
    OneRunCompletes([BeginRun(OneDraft, 0, 0)] + [StartRun("n", 1, 1)]);
    OneRunFails(OneRun);
  }
}
