/**
The replication protocol between the conversation log and a browser: a server that streams the
log after the requested sequence, a connection that can drop, re-send old frames and interleave
heartbeats, and the page of `ChatClient`.
*/
module ChatProtocol {
  import opened Wrappers
  import opened ChatEvents
  import opened ChatReducerProofs
  import opened ChatRace
  import opened ChatClient

  /** A frame in flight; a logged event is named by its place in the log. */
  datatype InFlight = Entry(k: nat) | Beat

  /** An open connection: the frames in flight and how much of the log the server has sent. */
  datatype Link = Link(queue: seq<InFlight>, sent: nat)

  datatype System = System(log: seq<Event>, client: Client, link: Option<Link>)

  datatype Action =
    | Append(event: Event)          // the server logs an event
    | Connect                       // the browser opens a connection after its last sequence
    | Send                          // the server sends the next logged event
    | Resend(k: nat)                // an event already sent is sent again
    | Heartbeat
    | Deliver                       // the first frame in flight reaches the page
    | Disconnect                    // the connection is lost with everything in flight
    | Load(items: seq<Message>)     // a history page replaces the list
    | Accept(user: Message, response: Message, runId: string)  // the HTTP response of a send

  function LastSequence(log: seq<Event>): nat {
    if log == [] then 0 else log[|log| - 1].sequence
  }

  function FrameOf(log: seq<Event>, f: InFlight): Frame
    requires f.Entry? ==> f.k < |log|
  {
    match f
    case Entry(k) => EventFrame(log[k])
    case Beat => HeartbeatFrame(0)
  }

  /** One step; an action that is not possible in the current state does nothing. */
  function Step(s: System, a: Action): System {
    match a
    case Append(e) => if e.sequence > LastSequence(s.log) then s.(log := s.log + [e]) else s
    case Connect => s.(link := Some(Link([], Covered(s.log, s.client.lastSequence))))
    case Send =>
      if s.link.Some? && s.link.value.sent < |s.log| then
        s.(link := Some(Link(s.link.value.queue + [Entry(s.link.value.sent)], s.link.value.sent + 1)))
      else s
    case Resend(k) =>
      if s.link.Some? && k < s.link.value.sent then
        s.(link := Some(s.link.value.(queue := s.link.value.queue + [Entry(k)])))
      else s
    case Heartbeat =>
      if s.link.Some? then s.(link := Some(s.link.value.(queue := s.link.value.queue + [Beat]))) else s
    case Deliver =>
      if s.link.Some? && s.link.value.queue != [] &&
         (s.link.value.queue[0].Entry? ==> s.link.value.queue[0].k < |s.log|) then
        s.(client := Receive(s.client, FrameOf(s.log, s.link.value.queue[0])),
           link := Some(s.link.value.(queue := s.link.value.queue[1..])))
      else s
    case Disconnect => s.(link := None)
    case Load(items) => s.(client := s.client.(messages := items))
    case Accept(user, response, runId) => s.(client := AcceptRun(s.client, user, response, runId))
  }

  function Run(s: System, actions: seq<Action>): System {
    if actions == [] then s else Step(Run(s, actions[..|actions| - 1]), actions[|actions| - 1])
  }

  /** What may happen: each action, where it is possible, and what it leaves alone. */
  lemma StepExact(s: System, a: Action)
    ensures var t := Step(s, a);
            match a
            case Append(e) =>
              t.client == s.client && t.link == s.link &&
              t.log == if e.sequence > 0 && (s.log == [] || s.log[|s.log| - 1].sequence < e.sequence) then s.log + [e]
                       else s.log
            case Connect =>
              t.log == s.log && t.client == s.client &&
              t.link == Some(Link([], Covered(s.log, s.client.lastSequence)))
            case Send =>
              t == if s.link == None || s.link.value.sent >= |s.log| then s
                   else Queued(s, [Entry(s.link.value.sent)], s.link.value.sent + 1)
            case Resend(k) =>
              t == if s.link == None || k >= s.link.value.sent then s
                   else Queued(s, [Entry(k)], s.link.value.sent)
            case Heartbeat =>
              t == if s.link == None then s else Queued(s, [Beat], s.link.value.sent)
            case Deliver =>
              if s.link == None || s.link.value.queue == [] then t == s
              else
                var frame, rest := s.link.value.queue[0], Some(Link(s.link.value.queue[1..], s.link.value.sent));
                (frame == Beat ==> t == System(s.log, s.client, rest)) &&
                (frame.Entry? && frame.k < |s.log| ==>
                   t == System(s.log, Receive(s.client, EventFrame(s.log[frame.k])), rest))
            case Disconnect => t.log == s.log && t.client == s.client && t.link == None
            case Load(items) =>
              t.log == s.log && t.link == s.link &&
              t.client == Client(s.client.lastSequence, items, s.client.activeRunId)
            case Accept(user, response, runId) =>
              t.log == s.log && t.link == s.link && t.client == AcceptRun(s.client, user, response, runId)
  {
  }

  /** Frames are added behind those in flight. */
  ghost function Queued(s: System, frames: seq<InFlight>, sent: nat): System
    requires s.link.Some?
  {
    System(s.log, s.client, Some(Link(s.link.value.queue + frames, sent)))
  }

  // ---------------------------------------------------------------- invariant

  /** Playing the frames in flight over `n` applied events skips nothing and ends at `sent`. */
  predicate Feeds(n: nat, queue: seq<InFlight>, sent: nat)
    decreases |queue|
  {
    if queue == [] then n == sent else
    match queue[0]
    case Beat => Feeds(n, queue[1..], sent)
    case Entry(k) => k <= n && Feeds(if k == n then n + 1 else n, queue[1..], sent)
  }

  function Applied(s: System): nat {
    Covered(s.log, s.client.lastSequence)
  }

  ghost predicate Valid(s: System) {
    Increasing(s.log) &&
    Applied(s) <= |s.log| &&
    s.client.lastSequence == (if Applied(s) == 0 then 0 else s.log[Applied(s) - 1].sequence) &&
    (s.link.Some? ==> s.link.value.sent <= |s.log| && Feeds(Applied(s), s.link.value.queue, s.link.value.sent))
  }

  lemma {:induction false} FeedsPush(n: nat, queue: seq<InFlight>, sent: nat, f: InFlight)
    requires Feeds(n, queue, sent)
    requires f.Entry? ==> f.k <= sent
    ensures Feeds(n, queue + [f], if f == Entry(sent) then sent + 1 else sent)
    decreases |queue|
  {
    if queue != [] {
      assert (queue + [f])[1..] == queue[1..] + [f];
      FeedsPush(if queue[0].Entry? && queue[0].k == n then n + 1 else n, queue[1..], sent, f);
    }
  }

  lemma {:induction false} FeedsBound(n: nat, queue: seq<InFlight>, sent: nat)
    requires Feeds(n, queue, sent)
    ensures n <= sent
    ensures queue != [] && queue[0] == Entry(n) ==> n < sent
    decreases |queue|
  {
    if queue != [] {
      FeedsBound(if queue[0].Entry? && queue[0].k == n then n + 1 else n, queue[1..], sent);
    }
  }

  lemma IncreasingPush(log: seq<Event>, e: Event)
    requires Increasing(log) && e.sequence > LastSequence(log)
    ensures Increasing(log + [e])
  {
    forall i | 0 <= i < |log| ensures log[i].sequence < e.sequence {
      assert i < |log| - 1 ==> log[i].sequence < log[|log| - 1].sequence;
    }
  }

  /** A later event does not change how much a sequence covers. */
  lemma CoveredPush(log: seq<Event>, e: Event, sequence: nat)
    requires e.sequence > sequence
    ensures Covered(log + [e], sequence) == Covered(log, sequence)
  {
    assert (log + [e])[..|log|] == log;
  }

  lemma {:induction false} ValidAppend(s: System, e: Event)
    requires Valid(s) && e.sequence > LastSequence(s.log)
    ensures Valid(Step(s, Append(e))) && Applied(Step(s, Append(e))) == Applied(s)
  {
    var n := Applied(s);
    assert n > 0 ==> n - 1 == |s.log| - 1 || s.log[n - 1].sequence < s.log[|s.log| - 1].sequence;
    IncreasingPush(s.log, e);
    CoveredPush(s.log, e, s.client.lastSequence);
  }

  /** A delivered frame is either the next logged event or changes nothing on the page. */
  lemma {:induction false} DeliverStep(s: System)
    requires Valid(s) && s.link.Some? && s.link.value.queue != []
    ensures Valid(Step(s, Deliver))
    ensures Step(s, Deliver).log == s.log
    ensures if s.link.value.queue[0] == Entry(Applied(s)) then
              Applied(s) < |s.log| &&
              Applied(Step(s, Deliver)) == Applied(s) + 1 &&
              s.client.lastSequence < s.log[Applied(s)].sequence &&
              Step(s, Deliver).client == Take(s.client, s.log[Applied(s)])
            else
              Applied(Step(s, Deliver)) == Applied(s) && Step(s, Deliver).client == s.client
  {
    var n, f := Applied(s), s.link.value.queue[0];
    CoveredCount(s.log, s.client.lastSequence);
    FeedsBound(n, s.link.value.queue, s.link.value.sent);
    if f == Entry(n) {
      CoveredUnique(s.log, s.log[n].sequence, n + 1);
    } else if f.Entry? {
      assert s.log[f.k].sequence <= s.client.lastSequence;
    }
  }

  /** Asking for the log after the last sequence yields exactly the events not yet applied, none twice. */
  lemma {:induction false} ResumeExactly(s: System)
    requires Valid(s)
    ensures s.log == s.log[..Applied(s)] + EventsAfter(s.log, s.client.lastSequence)
    ensures Step(s, Connect).link == Some(Link([], |s.log| - |EventsAfter(s.log, s.client.lastSequence)|))
  {
    EventsAfterCovered(s.log, s.client.lastSequence);
  }

  lemma {:induction false} ValidStep(s: System, a: Action)
    requires Valid(s)
    ensures Valid(Step(s, a))
    ensures s.log <= Step(s, a).log
    ensures Applied(s) <= Applied(Step(s, a)) <= Applied(s) + 1
    ensures !a.Deliver? ==> Applied(Step(s, a)) == Applied(s)
    ensures s.client.lastSequence <= Step(s, a).client.lastSequence
  {
    var n, t := Applied(s), Step(s, a);
    match a
    case Append(e) => if t != s { ValidAppend(s, e); }
    case Send => if t != s { FeedsPush(n, s.link.value.queue, s.link.value.sent, Entry(s.link.value.sent)); }
    case Resend(k) => if t != s { FeedsPush(n, s.link.value.queue, s.link.value.sent, Entry(k)); }
    case Heartbeat => if t != s { FeedsPush(n, s.link.value.queue, s.link.value.sent, Beat); }
    case Deliver => if s.link.Some? && s.link.value.queue != [] { DeliverStep(s); }
    case _ =>
  }

  lemma {:induction false} ValidRun(s: System, actions: seq<Action>)
    requires Valid(s)
    ensures Valid(Run(s, actions))
    ensures s.log <= Run(s, actions).log
    ensures Applied(s) <= Applied(Run(s, actions))
    ensures s.client.lastSequence <= Run(s, actions).client.lastSequence
  {
    if actions != [] {
      ValidRun(s, actions[..|actions| - 1]);
      ValidStep(Run(s, actions[..|actions| - 1]), actions[|actions| - 1]);
    }
  }
}
