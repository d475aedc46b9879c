/**
Theorems about every run of the replication protocol: each logged event is applied exactly once
and in order, whatever is dropped, repeated or raced by HTTP responses; a browser can always
catch up; and exactly which history loads are harmless.
*/
module ChatRuns {
  import opened Wrappers
  import opened ChatEvents
  import opened ChatReducerProofs
  import opened ChatRace
  import opened ChatClient
  import opened ChatProtocol

  ghost predicate Without(actions: seq<Action>, loads: bool, accepts: bool) {
    forall i :: 0 <= i < |actions| ==> (loads ==> !actions[i].Load?) && (accepts ==> !actions[i].Accept?)
  }

  /** The list updates an action makes. */
  function Updates(s: System, a: Action): seq<Arrival> {
    match a
    case Deliver =>
      if s.link.Some? && s.link.value.queue != [] && s.link.value.queue[0] == Entry(Applied(s)) &&
         Applied(s) < |s.log| then
        [FromSocket(s.log[Applied(s)])]
      else []
    case Accept(user, response, runId) =>
      [FromAccept(AcceptEvent(user, runId, MAX_SAFE_INTEGER - 1)),
       FromAccept(AcceptEvent(response, runId, MAX_SAFE_INTEGER))]
    case Load(items) => [FromLoad(items)]
    case _ => []
  }

  function UpdatesOf(s: System, actions: seq<Action>): seq<Arrival> {
    if actions == [] then []
    else UpdatesOf(s, actions[..|actions| - 1]) +
         Updates(Run(s, actions[..|actions| - 1]), actions[|actions| - 1])
  }

  function IndicatorAfter(active: Option<string>, a: Arrival): Option<string> {
    match a
    case FromSocket(e) => RunSignal(active, e)
    case FromAccept(e) => e.runId
    case FromLoad(_) => active
  }

  /** The run indicator after a stream of updates; an accepted run sets it. */
  function Indicator(active: Option<string>, stream: seq<Arrival>): Option<string> {
    if stream == [] then active
    else IndicatorAfter(Indicator(active, stream[..|stream| - 1]), stream[|stream| - 1])
  }

  lemma StreamPush(messages: seq<Message>, active: Option<string>, stream: seq<Arrival>, a: Arrival)
    ensures Shown(messages, stream + [a]) == Arrive(Shown(messages, stream), a)
    ensures Logged(stream + [a]) == Logged(stream) + if a.FromSocket? then [a.event] else []
    ensures Indicator(active, stream + [a]) == IndicatorAfter(Indicator(active, stream), a)
  {
    assert (stream + [a])[..|stream|] == stream;
  }

  lemma StreamPushTwo(messages: seq<Message>, active: Option<string>, stream: seq<Arrival>, a: Arrival, b: Arrival)
    requires a.FromAccept? && b.FromAccept?
    ensures Shown(messages, stream + [a, b]) == Apply(Apply(Shown(messages, stream), a.event), b.event)
    ensures Logged(stream + [a, b]) == Logged(stream)
    ensures Indicator(active, stream + [a, b]) == b.event.runId
  {
    assert stream + [a, b] == (stream + [a]) + [b];
    StreamPush(messages, active, stream, a);
    StreamPush(messages, active, stream + [a], b);
  }

  /** A stream of updates explains the page reached from `s`. */
  ghost predicate Explains(s: System, stream: seq<Arrival>, t: System) {
    && Valid(s) && Valid(t) && s.log <= t.log && Applied(s) <= Applied(t)
    && t.client.messages == Shown(s.client.messages, stream)
    && t.client.activeRunId == Indicator(s.client.activeRunId, stream)
    && Logged(stream) == t.log[Applied(s)..Applied(t)]
  }

  lemma ExplainsPush(s: System, stream: seq<Arrival>, t: System, u: System, e: Event)
    requires Explains(s, stream, t) && Valid(u) && u.log == t.log && Applied(t) < |t.log| && e == t.log[Applied(t)]
    requires Applied(u) == Applied(t) + 1 && u.client == Take(t.client, e)
    ensures Explains(s, stream + [FromSocket(e)], u)
  {
    StreamPush(s.client.messages, s.client.activeRunId, stream, FromSocket(e));
    assert t.log[Applied(s)..Applied(t) + 1] == t.log[Applied(s)..Applied(t)] + [e];
  }

  lemma ExplainsIdle(s: System, stream: seq<Arrival>, t: System, u: System)
    requires Explains(s, stream, t) && Valid(u) && t.log <= u.log
    requires Applied(u) == Applied(t) && u.client == t.client
    ensures Explains(s, stream, u)
  {
    assert u.log[Applied(s)..Applied(t)] == t.log[Applied(s)..Applied(t)];
  }

  lemma {:induction false} ExplainsDeliver(s: System, stream: seq<Arrival>, t: System)
    requires Explains(s, stream, t) && Updates(t, Deliver) != []
    ensures Explains(s, stream + Updates(t, Deliver), Step(t, Deliver))
  {
    DeliverStep(t);
    ExplainsPush(s, stream, t, Step(t, Deliver), t.log[Applied(t)]);
  }

  lemma AcceptKeeps(t: System, a: Action)
    requires Valid(t) && a.Accept?
    ensures Valid(Step(t, a)) && Step(t, a).log == t.log && Applied(Step(t, a)) == Applied(t)
    ensures Step(t, a).client == AcceptRun(t.client, a.user, a.response, a.runId)
  {
    ValidStep(t, a);
  }

  lemma {:induction false} ExplainsAccept(s: System, stream: seq<Arrival>, t: System, a: Action)
    requires Explains(s, stream, t) && a.Accept?
    ensures Explains(s, stream + Updates(t, a), Step(t, a))
  {
    var first := FromAccept(AcceptEvent(a.user, a.runId, MAX_SAFE_INTEGER - 1));
    var second := FromAccept(AcceptEvent(a.response, a.runId, MAX_SAFE_INTEGER));
    assert Updates(t, a) == [first, second];
    AcceptKeeps(t, a);
    StreamPushTwo(s.client.messages, s.client.activeRunId, stream, first, second);
  }

  lemma {:induction false} ExplainsLoad(s: System, stream: seq<Arrival>, t: System, a: Action)
    requires Explains(s, stream, t) && a.Load?
    ensures Explains(s, stream + Updates(t, a), Step(t, a))
  {
    ValidStep(t, a);
    StreamPush(s.client.messages, s.client.activeRunId, stream, FromLoad(a.items));
  }

  lemma {:induction false} IdleStep(t: System, a: Action)
    requires Valid(t) && Updates(t, a) == []
    ensures Valid(Step(t, a)) && t.log <= Step(t, a).log
    ensures Step(t, a).client == t.client && Applied(Step(t, a)) == Applied(t)
  {
    ValidStep(t, a);
    if a.Deliver? && t.link.Some? && t.link.value.queue != [] {
      DeliverStep(t);
    }
  }

  lemma {:induction false} ExplainsStep(s: System, stream: seq<Arrival>, t: System, a: Action)
    requires Explains(s, stream, t)
    ensures Explains(s, stream + Updates(t, a), Step(t, a))
  {
    if Updates(t, a) == [] {
      IdleStep(t, a);
      ExplainsIdle(s, stream, t, Step(t, a));
      assert stream + [] == stream;
    } else if a.Deliver? {
      ExplainsDeliver(s, stream, t);
    } else if a.Load? {
      ExplainsLoad(s, stream, t, a);
    } else {
      ExplainsAccept(s, stream, t, a);
    }
  }

  /**
  Over every run the page is explained by one stream of updates: exactly the logged events it
  moved past, once each and in log order, with accept responses and history pages between them.
  */
  lemma {:induction false} RunIsStream(s: System, actions: seq<Action>)
    requires Valid(s)
    ensures Explains(s, UpdatesOf(s, actions), Run(s, actions))
  {
    if actions == [] {
      assert s.log[Applied(s)..Applied(s)] == [];
    } else {
      var front := actions[..|actions| - 1];
      RunIsStream(s, front);
      ExplainsStep(s, UpdatesOf(s, front), Run(s, front), actions[|actions| - 1]);
    }
  }

  lemma SocketPush(messages: seq<Message>, stream: seq<Arrival>, e: Event)
    requires Shown(messages, stream) == Fold(messages, Logged(stream))
    ensures Shown(messages, stream + [FromSocket(e)]) == Fold(messages, Logged(stream + [FromSocket(e)]))
  {
    StreamPush(messages, None, stream, FromSocket(e));
    var log := Logged(stream);
    assert (log + [e])[..|log|] == log;
  }

  lemma {:induction false} OnlySocket(s: System, actions: seq<Action>)
    requires Valid(s) && Without(actions, true, true)
    ensures Shown(s.client.messages, UpdatesOf(s, actions)) == Fold(s.client.messages, Logged(UpdatesOf(s, actions)))
  {
    if actions != [] {
      var front := actions[..|actions| - 1];
      OnlySocket(s, front);
      var stream, more := UpdatesOf(s, front), Updates(Run(s, front), actions[|actions| - 1]);
      if more == [] {
        assert stream + more == stream;
      } else {
        SocketPush(s.client.messages, stream, more[0].event);
      }
    }
  }

  /** Without loads and accept responses the page folds the part of the log it moved over. */
  lemma {:induction false} SocketRun(s: System, actions: seq<Action>, t: System)
    requires Valid(s) && Without(actions, true, true) && t == Run(s, actions)
    ensures Valid(t) && s.log <= t.log && Applied(s) <= Applied(t) <= |t.log|
    ensures t.client.messages == Fold(s.client.messages, t.log[Applied(s)..Applied(t)])
  {
    RunIsStream(s, actions);
    OnlySocket(s, actions);
  }

  /** The state right after a conversation is selected, with any list still on the page. */
  function Selected(log: seq<Event>, base: seq<Message>): System {
    System(log, Client(0, base, None), None)
  }

  lemma SelectedValid(log: seq<Event>, base: seq<Message>)
    requires Increasing(log)
    ensures Valid(Selected(log, base)) && Applied(Selected(log, base)) == 0
  {
    CoveredUnique(log, 0, 0);
  }

  /**
  Exactly-once application: for every interleaving of logging, connects, drops, re-sent frames and
  heartbeats, the page shows the fold of exactly the log prefix up to its last sequence.
  */
  lemma {:induction false} ExactlyOnce(log: seq<Event>, base: seq<Message>, actions: seq<Action>)
    requires Increasing(log) && Without(actions, true, true)
    ensures
      var t := Run(Selected(log, base), actions);
      Applied(t) <= |t.log| && log <= t.log &&
      t.client.messages == Fold(base, t.log[..Applied(t)]) &&
      t.client.lastSequence == (if Applied(t) == 0 then 0 else t.log[Applied(t) - 1].sequence)
  {
    var s := Selected(log, base);
    var t := Run(s, actions);
    SelectedValid(log, base);
    SocketRun(s, actions, t);
    assert t.log[0..Applied(t)] == t.log[..Applied(t)];
  }

  /**
  A run from the selection of a conversation up to `t`, in which accept responses and history
  pages brought what the store held of a message at some moment; `stored` is what it holds after
  the applied events, and `whole` the log about the message, as far as anyone has seen it.
  */
  ghost predicate Race(
    log: seq<Event>, base: seq<Message>, actions: seq<Action>, t: System, whole: seq<Event>, id: string,
    created: Message, stored: Message)
  {
    && Increasing(log) && UniqueIds(base) && Lookup(base, id) == None
    && t == Run(Selected(log, base), actions) && Applied(t) <= |t.log|
    && LoadsUnique(UpdatesOf(Selected(log, base), actions))
    && AllPictures(UpdatesOf(Selected(log, base), actions), whole, id)
    && Telling(About(t.log[..Applied(t)], id), whole, id, created) && About(t.log[..Applied(t)], id) != []
    && Told(t.log[..Applied(t)], id).Some? && Mirrors(stored, Told(t.log[..Applied(t)], id).value)
  }

  /**
  Every race of the protocol: a message is shown as the store has it if and only if its standing
  is in step.
  */
  lemma {:induction false} ProtocolRace(
    log: seq<Event>, base: seq<Message>, actions: seq<Action>, t: System, whole: seq<Event>, id: string,
    created: Message, stored: Message)
    requires Race(log, base, actions, t, whole, id, created, stored)
    ensures var shown := Lookup(t.client.messages, id);
            shown.Some? && Mirrors(stored, shown.value) <==>
            InStep(Stands(UpdatesOf(Selected(log, base), actions), id, created), stored.head.status)
  {
    var s := Selected(log, base);
    SelectedValid(log, base);
    RunIsStream(s, actions);
    assert t.log[0..Applied(t)] == t.log[..Applied(t)];
    RaceExact(base, UpdatesOf(s, actions), whole, id, created, stored);
  }

  /** The socket reports that a run was queued or started, and names it. */
  predicate BeginsRun(a: Arrival) {
    a.FromSocket? && a.event.eventType in {RunQueued, RunStarted} && a.event.runId.Some? && a.event.runId.value != ""
  }

  predicate EndsRun(a: Arrival) {
    a.FromSocket? && a.event.eventType in {RunCompleted, RunCancelled, RunFailed}
  }

  /** The updates that concern the run indicator. */
  predicate Signals(a: Arrival) {
    BeginsRun(a) || EndsRun(a) || a.FromAccept?
  }

  /** The last update that concerns the indicator. */
  function LastSignal(stream: seq<Arrival>): Option<Arrival> {
    if stream == [] then None
    else if Signals(stream[|stream| - 1]) then Some(stream[|stream| - 1])
    else LastSignal(stream[..|stream| - 1])
  }

  lemma SignalShows(active: Option<string>, a: Arrival)
    ensures IndicatorAfter(active, a) ==
            if EndsRun(a) then None else if BeginsRun(a) || a.FromAccept? then a.event.runId else active
  {
  }

  /**
  The run indicator, exactly: it names run `r` if and only if the last update that concerns it is a
  queued, started or accepted run `r`, or there is none and it named `r` before.
  */
  lemma {:induction false} IndicatorNames(active: Option<string>, stream: seq<Arrival>, r: string)
    ensures Indicator(active, stream) == Some(r) <==>
            match LastSignal(stream)
            case Some(a) => (BeginsRun(a) || a.FromAccept?) && a.event.runId == Some(r)
            case None => active == Some(r)
  {
    if stream != [] {
      SignalShows(Indicator(active, stream[..|stream| - 1]), stream[|stream| - 1]);
      if !Signals(stream[|stream| - 1]) {
        IndicatorNames(active, stream[..|stream| - 1], r);
      }
    }
  }

  /**
  It is empty if and only if the last update that concerns it is the end of a run -- any run, and
  not an accept response, even of a run that has already ended.
  */
  lemma {:induction false} IndicatorExact(active: Option<string>, stream: seq<Arrival>)
    requires forall k :: 0 <= k < |stream| && stream[k].FromAccept? ==> stream[k].event.runId.Some?
    ensures Indicator(active, stream) == None <==>
            if LastSignal(stream).Some? then EndsRun(LastSignal(stream).value) else active == None
  {
    if stream != [] {
      SignalShows(Indicator(active, stream[..|stream| - 1]), stream[|stream| - 1]);
      if !Signals(stream[|stream| - 1]) {
        IndicatorExact(active, stream[..|stream| - 1]);
      }
    }
  }

  // ---------------------------------------------------------------- catching up

  /** Reconnect, then send and deliver `k` events. */
  function CatchUp(k: nat): seq<Action> {
    if k == 0 then [Disconnect, Connect] else CatchUp(k - 1) + [Send, Deliver]
  }

  lemma RunPush(s: System, actions: seq<Action>, a: Action)
    ensures Run(s, actions + [a]) == Step(Run(s, actions), a)
  {
  }

  lemma RunTwo(s: System, actions: seq<Action>, a: Action, b: Action)
    ensures Run(s, actions + [a, b]) == Step(Step(Run(s, actions), a), b)
  {
    assert actions + [a, b] == (actions + [a]) + [b];
    RunPush(s, actions, a);
    RunPush(s, actions + [a], b);
  }

  lemma {:induction false} RunAppend(s: System, a: seq<Action>, b: seq<Action>)
    ensures Run(s, a + b) == Run(Run(s, a), b)
  {
    if b == [] {
      assert a + b == a;
    } else {
      RunAppend(s, a, b[..|b| - 1]);
      assert (a + b)[..|a + b| - 1] == a + b[..|b| - 1];
    }
  }

  lemma UpdatesPush(s: System, actions: seq<Action>, a: Action)
    ensures UpdatesOf(s, actions + [a]) == UpdatesOf(s, actions) + Updates(Run(s, actions), a)
  {
    assert (actions + [a])[..|actions|] == actions;
  }

  /** Connected with nothing in flight. */
  ghost predicate Quiet(s: System, log: seq<Event>) {
    Valid(s) && s.log == log && s.link == Some(Link([], Applied(s)))
  }

  lemma {:induction false} Reconnected(s: System)
    requires Valid(s)
    ensures var t := Step(Step(s, Disconnect), Connect); Quiet(t, s.log) && Applied(t) == Applied(s)
  {
  }

  lemma {:induction false} SendRound(s: System, n: nat)
    requires Quiet(s, s.log) && n == Applied(s) < |s.log|
    ensures var t := Step(Step(s, Send), Deliver); Quiet(t, s.log) && Applied(t) == n + 1
  {
    ValidStep(s, Send);
    assert Step(s, Send).link.value.queue == [Entry(n)];
    DeliverStep(Step(s, Send));
  }

  lemma {:induction false} CatchUpPlain(k: nat)
    ensures Without(CatchUp(k), true, true)
  {
    if k > 0 {
      CatchUpPlain(k - 1);
    }
  }

  lemma CatchUpBegins(s: System)
    requires Valid(s)
    ensures Quiet(Run(s, CatchUp(0)), s.log) && Applied(Run(s, CatchUp(0))) == Applied(s)
  {
    assert CatchUp(0) == [] + [Disconnect, Connect];
    RunTwo(s, [], Disconnect, Connect);
    Reconnected(s);
  }

  lemma CatchUpOnce(s: System, k: nat, log: seq<Event>, n: nat)
    requires k > 0 && Quiet(Run(s, CatchUp(k - 1)), log) && n == Applied(Run(s, CatchUp(k - 1))) < |log|
    ensures Quiet(Run(s, CatchUp(k)), log) && Applied(Run(s, CatchUp(k))) == n + 1
  {
    var t := Run(s, CatchUp(k - 1));
    assert Run(s, CatchUp(k)) == Step(Step(t, Send), Deliver) by {
      assert CatchUp(k) == CatchUp(k - 1) + [Send, Deliver];
      RunTwo(s, CatchUp(k - 1), Send, Deliver);
    }
    SendRound(t, n);
  }

  lemma {:induction false} CatchUpReaches(s: System, k: nat)
    requires Valid(s) && Applied(s) + k <= |s.log|
    ensures Quiet(Run(s, CatchUp(k)), s.log) && Applied(Run(s, CatchUp(k))) == Applied(s) + k
  {
    if k == 0 {
      CatchUpBegins(s);
    } else {
      CatchUpReaches(s, k - 1);
      CatchUpOnce(s, k, s.log, Applied(Run(s, CatchUp(k - 1))));
    }
  }

  /** From every reachable state the browser can reach the end of the log by reconnecting. */
  lemma {:induction false} CanCatchUp(s: System)
    requires Valid(s)
    ensures Applied(s) <= |s.log|
    ensures var t := Run(s, CatchUp(|s.log| - Applied(s)));
            t.log == s.log && Applied(t) == |t.log| &&
            t.client.messages == Fold(s.client.messages, s.log[Applied(s)..])
  {
    var k := |s.log| - Applied(s);
    var t := Run(s, CatchUp(k));
    assert t.log == s.log && Applied(t) == |s.log| by {
      CatchUpReaches(s, k);
    }
    assert t.client.messages == Fold(s.client.messages, t.log[Applied(s)..Applied(t)]) by {
      CatchUpPlain(k);
      SocketRun(s, CatchUp(k), t);
    }
    assert s.log[Applied(s)..|s.log|] == s.log[Applied(s)..];
  }

  // ---------------------------------------------------------------- history loads

  lemma {:induction false} ReplayOver(
    items: seq<Message>, events: seq<Event>, n: nat, k: nat, id: string, incoming: Incoming)
    requires UniqueIds(items) && n <= |events|
    requires LastTouch(events, k, id) && Classify(events[k]) == Put(incoming)
    requires incoming.head.status != Processing
    ensures var shown := Lookup(Fold(items, events[n..]), id);
            (shown.Some? && shown.value.head == incoming.head) <==>
            (k >= n || (Lookup(items, id).Some? && Lookup(items, id).value.head == incoming.head))
  {
    FoldIsPerMessage(items, events[n..], id);
    if k >= n {
      assert LastTouch(events[n..], k - n, id);
      Convergence(items, items, events[n..], k - n, id, incoming);
    } else {
      FoldRecordUntouched(Lookup(items, id), events[n..], id);
    }
  }

  lemma LoadKeeps(s: System, items: seq<Message>)
    requires Valid(s)
    ensures var t := Step(s, Load(items)); Valid(t) && Applied(t) == Applied(s) && t.client.messages == items
  {
    ValidStep(s, Load(items));
  }

  /**
  A history page loaded when `Applied(s)` events were already applied: the message whose last
  event is a payload with a final status is shown with that payload if and only if that event was
  still to come, or the page already had it.  A page older than the socket therefore hides it.
  */
  lemma {:induction false} HistoryLoad(
    s: System, items: seq<Message>, actions: seq<Action>, t: System, k: nat, id: string, incoming: Incoming)
    requires Valid(s) && Without(actions, true, true) && UniqueIds(items)
    requires t == Run(Step(s, Load(items)), actions)
    requires Applied(t) <= |t.log| && LastTouch(t.log[..Applied(t)], k, id)
    requires Classify(t.log[k]) == Put(incoming) && incoming.head.status != Processing
    ensures
      var shown := Lookup(t.client.messages, id);
      (shown.Some? && shown.value.head == incoming.head) <==>
      (k >= Applied(s) || (Lookup(items, id).Some? && Lookup(items, id).value.head == incoming.head))
  {
    LoadKeeps(s, items);
    SocketRun(Step(s, Load(items)), actions, t);
    var n, seen := Applied(s), t.log[..Applied(t)];
    assert seen[n..] == t.log[n..Applied(t)];
    assert seen[k] == t.log[k];
    ReplayOver(items, seen, n, k, id, incoming);
  }
}
