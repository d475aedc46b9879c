/**
The two-call saga behind a recommendation: dispose of the alert, then report the feedback.  Either
call, or only its answer, may be lost; the page remembers in a set which alerts it has seen
disposed of but not yet reported.  Buttons exist only for alerts on the list last fetched, and the
server lists only alerts with no disposition in force and no feedback.  For every report it
computes the recommendation anew and accepts only a disposition that fits it.
*/
module RecommendationSaga {
  import opened Wrappers

  datatype Action = Acknowledge | Suppress | Observe

  datatype Decision = Accepted | Rejected

  // ---------------------------------------------------------------- the server

  /** A recorded feedback; `inForce`, kept by the model only, is the disposition then in force. */
  datatype Feedback = Feedback(
    decision: Decision, action: Action, alternative: Option<Action>, inForce: Option<Action>)

  /** The current recommendation of every active alert, dispositions in force, and recorded feedback. */
  datatype Server = Server(
    recommended: map<string, Action>, dispositions: map<string, Action>, feedback: map<string, Feedback>)

  datatype Refusal =
    | Unconfirmed | OtherDecision | NotActive | AlternativeOnAcceptance | AlternativeRepeats | NotDisposed

  function InForce(s: Server, id: string): Option<Action> {
    if id in s.dispositions then Some(s.dispositions[id]) else None
  }

  /** The recommendations on offer: active alerts with no disposition in force and no feedback. */
  function Listing(s: Server): map<string, Action> {
    map id | id in s.recommended && id !in s.dispositions && id !in s.feedback :: s.recommended[id]
  }

  /** A disposition replaces the one in force; only active alerts can be disposed of. */
  function SetDisposition(s: Server, id: string, action: Action): Option<Server> {
    if id in s.recommended then Some(s.(dispositions := s.dispositions[id := action])) else None
  }

  /** An acceptance of an acting recommendation needs that disposition to be in force. */
  function Refused(s: Server, id: string, decision: Decision, alternative: Option<Action>): Option<Refusal> {
    if id !in s.recommended then Some(NotActive)
    else if decision == Accepted && alternative.Some? then Some(AlternativeOnAcceptance)
    else if alternative == Some(s.recommended[id]) then Some(AlternativeRepeats)
    else if decision == Accepted && s.recommended[id] != Observe && InForce(s, id) != Some(s.recommended[id]) then
      Some(NotDisposed)
    else None
  }

  function Report(s: Server, id: string, confirmed: bool, decision: Decision, alternative: Option<Action>)
    : Result<Server, Refusal>
  {
    if !confirmed then Err(Unconfirmed)
    else if id in s.feedback then
      if s.feedback[id].decision == decision then Ok(s) else Err(OtherDecision)
    else
      match Refused(s, id, decision, alternative)
      case Some(refusal) => Err(refusal)
      case None =>
        Ok(s.(feedback := s.feedback[id := Feedback(decision, s.recommended[id], alternative, InForce(s, id))]))
  }

  // ---------------------------------------------------------------- the page

  /** A call does not arrive, or its answer does not, or both do. */
  datatype Transport = Lost | Unanswered | Answered

  /** What the page has seen succeed, oldest first; `shown` is the recommendation it displayed. */
  datatype Observation =
    | Disposed(lifecycleId: string, action: Action)
    | Recorded(lifecycleId: string, decision: Decision, shown: Action, action: Action)

  datatype Failure = AlreadyDisposed | DispositionFailed | FeedbackFailed(refusal: Option<Refusal>)

  datatype World = World(
    server: Server, listed: map<string, Action>, completed: set<string>, seen: seq<Observation>)

  const Start := World(Server(map[], map[], map[]), map[], {}, [])

  /** What happens besides the presses; a fetched list leaves out what filters and limits hide. */
  datatype Other =
    | Dispose(id: string, inForce: Option<Action>)       // others dispose, or a disposition ends
    | Tell(id: string, confirmed: bool, decision: Decision, alternative: Option<Action>)
    | Recommend(id: string, action: Option<Action>)      // the recommendation changes, or the alert ends
    | Refresh(hidden: set<string>)                       // the page fetches the list

  /** The alert that is acted on. */
  function Subject(o: Other): Option<string> {
    match o
    case Dispose(id, _) => Some(id)
    case Tell(id, _, _, _) => Some(id)
    case Recommend(id, _) => Some(id)
    case Refresh(_) => None
  }

  function Disturb(w: World, o: Other): World {
    var s := w.server;
    match o
    case Dispose(id, inForce) =>
      if inForce.Some? && inForce.value != Observe then
        w.(server := s.(dispositions := s.dispositions[id := inForce.value]))
      else w.(server := s.(dispositions := s.dispositions - {id}))
    case Tell(id, confirmed, decision, alternative) =>
      (match Report(s, id, confirmed, decision, alternative)
       case Ok(after) => w.(server := after)
       case Err(_) => w)
    case Recommend(id, action) =>
      if action.Some? then w.(server := s.(recommended := s.recommended[id := action.value]))
      else w.(server := s.(recommended := s.recommended - {id}))
    case Refresh(hidden) => w.(listed := Listing(s) - hidden)
  }

  function DisturbAll(w: World, events: seq<Other>): World {
    if events == [] then w else Disturb(DisturbAll(w, events[..|events| - 1]), events[|events| - 1])
  }

  /** One press of a button of a listed alert, with what happens to its two calls and between them. */
  datatype Press = Press(
    id: string, decision: Decision, alternative: Option<Action>, disposal: Transport, between: seq<Other>,
    report: Transport)

  /** Whether a press disposes of the alert; `shown` is the recommendation on the list. */
  predicate Disposes(w: World, p: Press, shown: Action) {
    p.decision == Accepted && shown != Observe && p.id !in w.completed
  }

  /** The world when the disposition has been dealt with, and whether the page knows it succeeded. */
  function AfterDisposal(w: World, p: Press, shown: Action): (World, bool) {
    if !Disposes(w, p, shown) then (w, true)
    else if p.disposal.Lost? then (w, false)
    else
      match SetDisposition(w.server, p.id, shown)
      case None => (w, false)
      case Some(server) =>
        if p.disposal.Unanswered? then (w.(server := server), false)
        else (World(server, w.listed, w.completed + {p.id}, w.seen + [Disposed(p.id, shown)]), true)
  }

  function Alternative(p: Press): Option<Action> {
    if p.decision == Rejected then p.alternative else None
  }

  /** The world when the feedback call has been dealt with. */
  function AfterReport(w: World, p: Press, shown: Action): (World, Option<Failure>) {
    if p.report.Lost? then (w, Some(FeedbackFailed(None))) else
    match Report(w.server, p.id, true, p.decision, Alternative(p))
    case Err(refusal) => (w, Some(FeedbackFailed(if p.report.Answered? then Some(refusal) else None)))
    case Ok(server) =>
      if p.report.Unanswered? then (w.(server := server), Some(FeedbackFailed(None)))
      else (World(server, w.listed, w.completed - {p.id},
                  w.seen + [Recorded(p.id, p.decision, shown, server.feedback[p.id].action)]), None)
  }

  /** The world when the feedback call is about to arrive. */
  function AtReport(w: World, p: Press, shown: Action): World {
    DisturbAll(AfterDisposal(w, p, shown).0, p.between)
  }

  function Submit(w: World, p: Press, shown: Action): (World, Option<Failure>) {
    if p.decision == Rejected && p.id in w.completed then (w, Some(AlreadyDisposed))
    else if !AfterDisposal(w, p, shown).1 then (AfterDisposal(w, p, shown).0, Some(DispositionFailed))
    else AfterReport(AtReport(w, p, shown), p, shown)
  }

  /** A page lifetime: presses one after the other, with other things happening in between. */
  datatype Event = Pressed(press: Press) | Elsewhere(other: Other)

  /** An alert that is not listed has no button to press. */
  function Step(w: World, e: Event): World {
    match e
    case Pressed(p) => if p.id in w.listed then Submit(w, p, w.listed[p.id]).0 else w
    case Elsewhere(o) => Disturb(w, o)
  }

  function Session(w: World, events: seq<Event>): World {
    if events == [] then w else Step(Session(w, events[..|events| - 1]), events[|events| - 1])
  }

  // ---------------------------------------------------------------- the page and the service

  class AlertService {
    var recommended: map<string, Action>
    var dispositions: map<string, Action>
    var feedback: map<string, Feedback>

    function State(): Server
      reads this
    {
      Server(recommended, dispositions, feedback)
    }

    constructor ()
      ensures State() == Server(map[], map[], map[])
    {
      recommended, dispositions, feedback := map[], map[], map[];
    }

    method ListRecommendations() returns (r: map<string, Action>)
      ensures forall id :: id in r <==> id in recommended && id !in dispositions && id !in feedback
      ensures forall id :: id in r ==> r[id] == recommended[id]
    {
      r := map id | id in recommended && id !in dispositions && id !in feedback :: recommended[id];
    }

    method Dispose(id: string, action: Action) returns (done: bool)
      modifies this
      ensures match SetDisposition(old(State()), id, action)
              case Some(after) => done && State() == after
              case None => !done && State() == old(State())
    {
      if id !in recommended {
        return false;
      }
      dispositions := dispositions[id := action];
      return true;
    }

    method SubmitReport(id: string, confirmed: bool, decision: Decision, alternative: Option<Action>)
      returns (r: Result<Feedback, Refusal>)
      modifies this
      ensures match Report(old(State()), id, confirmed, decision, alternative)
              case Ok(after) => State() == after && id in feedback && r == Ok(feedback[id])
              case Err(refusal) => State() == old(State()) && r == Err(refusal)
      ensures !confirmed ==> r == Err(Unconfirmed)
      ensures confirmed && old(id in feedback && feedback[id].decision == decision) ==>
                r == Ok(old(feedback)[id]) && State() == old(State())
      ensures confirmed && old(id in feedback && feedback[id].decision != decision) ==> r == Err(OtherDecision)
    {
      if !confirmed {
        return Err(Unconfirmed);
      }
      if id in feedback {
        if feedback[id].decision == decision {
          return Ok(feedback[id]);
        }
        return Err(OtherDecision);
      }
      if id !in recommended {
        return Err(NotActive);
      }
      var current := recommended[id];
      if decision == Accepted && alternative.Some? {
        return Err(AlternativeOnAcceptance);
      }
      if alternative == Some(current) {
        return Err(AlternativeRepeats);
      }
      if decision == Accepted && current != Observe && (id !in dispositions || dispositions[id] != current) {
        return Err(NotDisposed);
      }
      feedback := feedback[id := Feedback(decision, current, alternative, InForce(State(), id))];
      return Ok(feedback[id]);
    }

    /** What others bring about. */
    method Change(o: Other)
      requires !o.Refresh?
      modifies this
      ensures forall w: World :: w.server == old(State()) ==> Disturb(w, o) == w.(server := State())
    {
      match o {
        case Dispose(id, inForce) =>
          dispositions := if inForce.Some? && inForce.value != Observe then dispositions[id := inForce.value]
                          else dispositions - {id};
        case Tell(id, confirmed, decision, alternative) =>
          var r := SubmitReport(id, confirmed, decision, alternative);
        case Recommend(id, action) =>
          recommended := if action.Some? then recommended[id := action.value] else recommended - {id};
      }
    }
  }

  class RecommendationPanel {
    const service: AlertService
    var listed: map<string, Action>
    var completed: set<string>
    ghost var seen: seq<Observation>

    constructor (service: AlertService)
      ensures this.service == service && listed == map[] && completed == {} && seen == []
    {
      this.service := service;
      listed, completed, seen := map[], {}, [];
    }

    ghost function State(): World
      reads this, service
    {
      World(service.State(), listed, completed, seen)
    }

    method Refetch(hidden: set<string>)
      modifies this`listed
      ensures State() == Disturb(old(State()), Refresh(hidden))
      ensures forall id :: id in listed <==>
                (id in service.recommended && id !in service.dispositions && id !in service.feedback && id !in hidden)
      ensures forall id :: id in listed ==> listed[id] == service.recommended[id]
    {
      var offered := service.ListRecommendations();
      listed := offered - hidden;
      assert offered == Listing(service.State());
    }

    /** What happens while a call is awaited. */
    method Await(events: seq<Other>)
      modifies this`listed, service
      ensures State() == DisturbAll(old(State()), events)
    {
      for n := 0 to |events|
        invariant State() == DisturbAll(old(State()), events[..n])
      {
        assert events[..n + 1][..n] == events[..n];
        if events[n].Refresh? {
          Refetch(events[n].hidden);
        } else {
          service.Change(events[n]);
        }
      }
      assert events[..|events|] == events;
    }

    /** The mutation behind a listed alert's button; `p` also says what becomes of its two calls. */
    method SubmitFeedback(p: Press) returns (failure: Option<Failure>)
      requires p.id in listed
      modifies this, service
      ensures State() == Step(old(State()), Pressed(p))
      ensures failure == Submit(old(State()), p, old(listed)[p.id]).1
    {
      var shown := listed[p.id];
      if p.decision == Rejected && p.id in completed {
        return Some(AlreadyDisposed);
      }
      if p.decision == Accepted && shown != Observe {
        if p.id !in completed {
          if p.disposal.Lost? {
            return Some(DispositionFailed);
          }
          var done := service.Dispose(p.id, shown);
          if !done || p.disposal.Unanswered? {
            return Some(DispositionFailed);
          }
          seen := seen + [Disposed(p.id, shown)];
          completed := completed + {p.id};
        }
      }
      Await(p.between);
      if p.report.Lost? {
        return Some(FeedbackFailed(None));
      }
      var alternative := if p.decision == Rejected then p.alternative else None;
      var r := service.SubmitReport(p.id, true, p.decision, alternative);
      if p.report.Unanswered? {
        return Some(FeedbackFailed(None));
      }
      match r {
        case Err(refusal) => return Some(FeedbackFailed(Some(refusal)));
        case Ok(recorded) =>
          seen := seen + [Recorded(p.id, p.decision, shown, recorded.action)];
          completed := completed - {p.id};
          return None;
      }
    }
  }

  // ---------------------------------------------------------------- what every session keeps

  /** The dispositions of an alert seen since its last recorded feedback, oldest first. */
  function Open(seen: seq<Observation>, id: string): seq<Action> {
    if seen == [] then [] else
    var before, last := Open(seen[..|seen| - 1], id), seen[|seen| - 1];
    if last.lifecycleId != id then before
    else if last.Disposed? then before + [last.action]
    else []
  }

  /** At every moment of the history, an alert has at most one unreported disposition. */
  ghost predicate Disciplined(seen: seq<Observation>) {
    forall k, id :: 0 <= k <= |seen| ==> |Open(seen[..k], id)| <= 1
  }

  /** Feedback fits the open disposition: one before an acceptance that acts, none before a rejection. */
  ghost predicate FeedbackFits(seen: seq<Observation>) {
    forall k :: 0 <= k < |seen| && seen[k].Recorded? ==>
      (seen[k].decision == Accepted && seen[k].shown != Observe ==> |Open(seen[..k], seen[k].lifecycleId)| == 1) &&
      (seen[k].decision == Rejected ==> Open(seen[..k], seen[k].lifecycleId) == [])
  }

  ghost predicate Remembers(completed: set<string>, seen: seq<Observation>) {
    forall id :: |Open(seen, id)| == if id in completed then 1 else 0
  }

  ghost predicate Orderly(w: World) {
    Disciplined(w.seen) && FeedbackFits(w.seen) && Remembers(w.completed, w.seen)
  }

  lemma OpenPush(seen: seq<Observation>, o: Observation, id: string)
    ensures Open(seen + [o], id) ==
            if o.lifecycleId != id then Open(seen, id)
            else if o.Disposed? then Open(seen, id) + [o.action] else []
  {
    assert (seen + [o])[..|seen|] == seen;
  }

  lemma {:induction false} DisciplinePush(
    seen: seq<Observation>, completed: set<string>, o: Observation, after: set<string>)
    requires Disciplined(seen) && FeedbackFits(seen) && Remembers(completed, seen)
    requires o.Disposed? ==> o.lifecycleId !in completed && after == completed + {o.lifecycleId}
    requires o.Recorded? ==> after == completed - {o.lifecycleId}
    requires o.Recorded? && o.decision == Accepted && o.shown != Observe ==> o.lifecycleId in completed
    requires o.Recorded? && o.decision == Rejected ==> o.lifecycleId !in completed
    ensures Disciplined(seen + [o]) && FeedbackFits(seen + [o]) && Remembers(after, seen + [o])
  {
    var longer := seen + [o];
    forall id ensures |Open(longer, id)| == if id in after then 1 else 0 {
      OpenPush(seen, o, id);
    }
    forall k, id | 0 <= k <= |longer| ensures |Open(longer[..k], id)| <= 1 {
      if k <= |seen| {
        assert longer[..k] == seen[..k];
      } else {
        assert longer[..k] == longer;
      }
    }
    forall k | 0 <= k < |longer| ensures longer[..k] == seen[..k] && (k < |seen| ==> longer[k] == seen[k]) {
    }
    assert seen[..|seen|] == seen;
  }

  /** Others and refetches leave what the page remembers alone. */
  lemma {:induction false} DisturbKeeps(w: World, events: seq<Other>)
    ensures DisturbAll(w, events).completed == w.completed && DisturbAll(w, events).seen == w.seen
  {
    if events != [] {
      DisturbKeeps(w, events[..|events| - 1]);
    }
  }

  lemma {:induction false} DisposalKeepsOrder(w: World, p: Press, shown: Action)
    requires Orderly(w)
    ensures Orderly(AfterDisposal(w, p, shown).0)
    ensures AfterDisposal(w, p, shown).1 && p.decision == Accepted && shown != Observe ==>
              p.id in AfterDisposal(w, p, shown).0.completed
    ensures p.decision == Rejected ==> AfterDisposal(w, p, shown).0 == w
  {
    var mid := AfterDisposal(w, p, shown).0;
    if mid.seen != w.seen {
      DisciplinePush(w.seen, w.completed, Disposed(p.id, shown), mid.completed);
    }
  }

  lemma {:induction false} ReportKeepsOrder(w: World, p: Press, shown: Action)
    requires Orderly(w) && (p.decision == Accepted && shown != Observe ==> p.id in w.completed)
    requires p.decision == Rejected ==> p.id !in w.completed
    ensures Orderly(AfterReport(w, p, shown).0)
  {
    var after := AfterReport(w, p, shown).0;
    if |after.seen| > |w.seen| {
      DisciplinePush(w.seen, w.completed, after.seen[|w.seen|], after.completed);
    }
  }

  lemma {:induction false} SubmitKeeps(w: World, p: Press, shown: Action)
    requires Orderly(w)
    ensures Orderly(Submit(w, p, shown).0)
  {
    DisposalKeepsOrder(w, p, shown);
    DisturbKeeps(AfterDisposal(w, p, shown).0, p.between);
    if AfterDisposal(w, p, shown).1 && (p.decision == Rejected ==> p.id !in w.completed) {
      ReportKeepsOrder(AtReport(w, p, shown), p, shown);
    }
  }

  /**
  Over every page lifetime, whatever is lost and whatever others do: between two recorded
  feedbacks of an alert at most one disposition is seen to succeed, an accepted acting
  recommendation has exactly one, and no rejection is recorded while one is unreported.
  */
  lemma {:induction false} SessionDisciplined(events: seq<Event>)
    ensures Orderly(Session(Start, events))
  {
    if events == [] {
      assert Session(Start, events) == Start;
    } else {
      var before, last := Session(Start, events[..|events| - 1]), events[|events| - 1];
      SessionDisciplined(events[..|events| - 1]);
      match last
      case Pressed(p) => if p.id in before.listed { SubmitKeeps(before, p, before.listed[p.id]); }
      case Elsewhere(o) =>
    }
  }

  // ---------------------------------------------------------------- what the feedback says

  /** The recorded action is the one in force, or observing while nothing was. */
  predicate ReportsTruly(f: Feedback) {
    if f.action == Observe then f.inForce.None? else f.inForce == Some(f.action)
  }

  /**
  An accepted press is recorded untruly if and only if, when its report arrives, the server
  recommends to observe and a disposition is in force.
  */
  lemma {:induction false} UntrueReport(w: World, p: Press, shown: Action)
    requires p.decision == Accepted && p.id !in AtReport(w, p, shown).server.feedback
    requires AfterDisposal(w, p, shown).1 && p.id in Submit(w, p, shown).0.server.feedback
    ensures var arrived := AtReport(w, p, shown).server;
            p.id in arrived.recommended &&
            (!ReportsTruly(Submit(w, p, shown).0.server.feedback[p.id]) <==>
             arrived.recommended[p.id] == Observe && InForce(arrived, p.id).Some?)
  {
  }

  /** Every accepted feedback that was ever recorded, by whomever, names an action that was in force or observing. */
  ghost predicate Guarded(s: Server) {
    forall id :: id in s.feedback && s.feedback[id].decision == Accepted && s.feedback[id].action != Observe ==>
      s.feedback[id].inForce == Some(s.feedback[id].action)
  }

  lemma {:induction false} DisturbGuarded(w: World, events: seq<Other>)
    requires Guarded(w.server)
    ensures Guarded(DisturbAll(w, events).server)
  {
    if events != [] {
      DisturbGuarded(w, events[..|events| - 1]);
    }
  }

  lemma ReportGuarded(s: Server, id: string, decision: Decision, alternative: Option<Action>)
    requires Guarded(s)
    ensures match Report(s, id, true, decision, alternative) case Ok(after) => Guarded(after) case Err(_) => true
  {
  }

  lemma {:induction false} SubmitGuarded(w: World, p: Press, shown: Action)
    requires Guarded(w.server)
    ensures Guarded(Submit(w, p, shown).0.server)
  {
    assert Guarded(AfterDisposal(w, p, shown).0.server);
    DisturbGuarded(AfterDisposal(w, p, shown).0, p.between);
    ReportGuarded(AtReport(w, p, shown).server, p.id, p.decision, Alternative(p));
  }

  lemma {:induction false} SessionGuarded(events: seq<Event>)
    ensures Guarded(Session(Start, events).server)
  {
    if events != [] {
      var before, last := Session(Start, events[..|events| - 1]), events[|events| - 1];
      SessionGuarded(events[..|events| - 1]);
      match last
      case Pressed(p) => if p.id in before.listed { SubmitGuarded(before, p, before.listed[p.id]); }
      case Elsewhere(o) => DisturbGuarded(before, [o]); OneDisturbance(before, o);
    }
  }

  lemma OneDisturbance(w: World, o: Other)
    ensures DisturbAll(w, [o]) == Disturb(w, o)
  {
    assert [o][..0] == [];
  }

  /** Over every page lifetime an accepted report is untrue exactly when it says observing over a disposition. */
  lemma {:induction false} UntrueRecord(events: seq<Event>, id: string)
    requires var s := Session(Start, events).server; id in s.feedback && s.feedback[id].decision == Accepted
    ensures var f := Session(Start, events).server.feedback[id];
            !ReportsTruly(f) <==> f.action == Observe && f.inForce.Some?
  {
    SessionGuarded(events);
  }

  // ---------------------------------------------------------------- alerts that cannot be reported

  /** The alert is unreported, and it has ended, or has no button, or is stuck half-way. */
  predicate Unreportable(w: World, id: string) {
    id !in w.server.feedback &&
    (id !in w.server.recommended ||
     (id !in w.listed && InForce(w.server, id).Some?) ||
     (id in w.completed && w.server.recommended[id] != Observe &&
      InForce(w.server, id) != Some(w.server.recommended[id])))
  }

  /** Nobody else acts on the alert and its recommendation stays; the page may press and refetch at will. */
  ghost predicate Steady(e: Event, id: string) {
    match e
    case Pressed(p) => forall i :: 0 <= i < |p.between| ==> Subject(p.between[i]) != Some(id)
    case Elsewhere(o) => Subject(o) != Some(id)
  }

  ghost predicate AllSteady(events: seq<Event>, id: string) {
    forall i :: 0 <= i < |events| ==> Steady(events[i], id)
  }

  /** What the server knows of one alert. */
  function Facts(s: Server, id: string): (Option<Action>, Option<Action>, Option<Feedback>) {
    (if id in s.recommended then Some(s.recommended[id]) else None, InForce(s, id),
     if id in s.feedback then Some(s.feedback[id]) else None)
  }

  /** Nothing about the alert changed, except that its button may have gone. */
  ghost predicate SameFor(w: World, t: World, id: string) {
    Facts(w.server, id) == Facts(t.server, id) && (id in w.completed <==> id in t.completed) &&
    (InForce(w.server, id).Some? && id !in w.listed ==> id !in t.listed)
  }

  lemma OtherKeeps(w: World, o: Other, id: string)
    requires Subject(o) != Some(id)
    ensures SameFor(w, Disturb(w, o), id)
  {
  }

  lemma {:induction false} OthersKeep(w: World, events: seq<Other>, id: string)
    requires forall i :: 0 <= i < |events| ==> Subject(events[i]) != Some(id)
    ensures SameFor(w, DisturbAll(w, events), id)
  {
    if events != [] {
      OthersKeep(w, events[..|events| - 1], id);
      OtherKeeps(DisturbAll(w, events[..|events| - 1]), events[|events| - 1], id);
    }
  }

  lemma DisposalKeeps(w: World, p: Press, shown: Action, id: string)
    requires p.id != id
    ensures SameFor(w, AfterDisposal(w, p, shown).0, id)
  {
  }

  lemma ReportKeeps(w: World, p: Press, shown: Action, id: string)
    requires p.id != id
    ensures SameFor(w, AfterReport(w, p, shown).0, id)
  {
  }

  lemma {:induction false} OtherPressKeeps(w: World, p: Press, shown: Action, id: string)
    requires p.id != id && forall i :: 0 <= i < |p.between| ==> Subject(p.between[i]) != Some(id)
    ensures SameFor(w, Submit(w, p, shown).0, id)
  {
    DisposalKeeps(w, p, shown, id);
    OthersKeep(AfterDisposal(w, p, shown).0, p.between, id);
    ReportKeeps(AtReport(w, p, shown), p, shown, id);
  }

  lemma SameUnreportable(w: World, t: World, id: string)
    requires SameFor(w, t, id) && Unreportable(w, id)
    ensures Unreportable(t, id)
  {
  }

  /** A press on an alert that is stuck half-way neither disposes nor reports. */
  lemma {:induction false} StuckPressKeeps(w: World, p: Press, shown: Action)
    requires Unreportable(w, p.id) && p.id in w.listed
    requires forall i :: 0 <= i < |p.between| ==> Subject(p.between[i]) != Some(p.id)
    ensures Unreportable(Submit(w, p, shown).0, p.id)
  {
    OthersKeep(AfterDisposal(w, p, shown).0, p.between, p.id);
  }

  lemma {:induction false} UnreportableStep(w: World, e: Event, id: string)
    requires Unreportable(w, id) && Steady(e, id)
    ensures Unreportable(Step(w, e), id)
  {
    match e
    case Elsewhere(o) =>
      OtherKeeps(w, o, id);
      SameUnreportable(w, Disturb(w, o), id);
    case Pressed(p) =>
      if p.id in w.listed {
        if p.id == id {
          StuckPressKeeps(w, p, w.listed[id]);
        } else {
          OtherPressKeeps(w, p, w.listed[p.id], id);
          SameUnreportable(w, Submit(w, p, w.listed[p.id]).0, id);
        }
      }
  }

  lemma {:induction false} UnreportableStays(w: World, events: seq<Event>, id: string)
    requires Unreportable(w, id) && AllSteady(events, id)
    ensures Unreportable(Session(w, events), id)
  {
    if events != [] {
      var front, last := events[..|events| - 1], events[|events| - 1];
      assert AllSteady(front, id) && Steady(last, id);
      UnreportableStays(w, front, id);
      UnreportableStep(Session(w, front), last, id);
    }
  }

  lemma SessionPush(w: World, events: seq<Event>, e: Event)
    ensures Session(w, events + [e]) == Step(Session(w, events), e)
  {
    assert (events + [e])[..|events|] == events;
  }

  lemma SessionOne(w: World, e: Event)
    ensures Session(w, [e]) == Step(w, e)
  {
    assert [] + [e] == [e];
    SessionPush(w, [], e);
  }

  /** A press that is not disturbed and whose calls are answered. */
  function Plain(id: string, decision: Decision): Event {
    Pressed(Press(id, decision, None, Answered, [], Answered))
  }

  /** Reports a listed alert that is not unreportable: accepts what is disposed of, rejects what is not. */
  lemma {:induction false} ReportListed(w: World, id: string) returns (e: Event)
    requires !Unreportable(w, id) && id !in w.server.feedback && id in w.listed
    ensures Steady(e, id) && id in Step(w, e).server.feedback
  {
    e := Plain(id, if id in w.completed then Accepted else Rejected);
    var p := e.press;
    assert DisturbAll(AfterDisposal(w, p, w.listed[id]).0, p.between) == AfterDisposal(w, p, w.listed[id]).0;
  }

  /** Reports any unreported alert that is not unreportable, fetching the list first. */
  lemma {:induction false} ReportSomehow(w: World, id: string) returns (events: seq<Event>)
    requires !Unreportable(w, id) && id !in w.server.feedback
    ensures AllSteady(events, id) && id in Session(w, events).server.feedback
  {
    if id in w.listed {
      var e := ReportListed(w, id);
      events := [e];
      SessionOne(w, e);
    } else {
      var fetch := Elsewhere(Refresh({}));
      var e := ReportListed(Step(w, fetch), id);
      events := [fetch] + [e];
      SessionOne(w, fetch);
      SessionPush(w, [fetch], e);
    }
  }

  /**
  From any state of the page: while nobody else acts on an alert and its recommendation stays, no
  pressing and refetching ever gets it reported, if and only if it is unreported and it has ended,
  or a disposition in force keeps it off the list, or the page has disposed of it and the
  recommendation asks for a disposition that is not in force.
  */
  lemma {:induction false} NeverReported(w: World, id: string)
    ensures (forall events :: AllSteady(events, id) ==> id !in Session(w, events).server.feedback) <==>
            Unreportable(w, id)
  {
    if Unreportable(w, id) {
      forall events | AllSteady(events, id) ensures id !in Session(w, events).server.feedback {
        UnreportableStays(w, events, id);
      }
    } else if id in w.server.feedback {
      assert AllSteady([], id) && Session(w, []) == w;
    } else {
      var events := ReportSomehow(w, id);
    }
  }

  // ---------------------------------------------------------------- how alerts get there

  /** A page that lists one alert with one recommendation. */
  function Offered(id: string, action: Action): seq<Event> {
    [Elsewhere(Recommend(id, Some(action)))] + [Elsewhere(Refresh({}))]
  }

  lemma OfferedWorld(id: string, action: Action)
    ensures Session(Start, Offered(id, action)) ==
            World(Server(map[id := action], map[], map[]), map[id := action], {}, [])
  {
    var first := Elsewhere(Recommend(id, Some(action)));
    SessionOne(Start, first);
    SessionPush(Start, [first], Elsewhere(Refresh({})));
    assert Listing(Server(map[id := action], map[], map[])) == map[id := action];
  }

  /** An acceptance whose feedback call is lost. */
  function LostReport(id: string): Event {
    Pressed(Press(id, Accepted, None, Answered, [], Lost))
  }

  lemma LostReportWorld(id: string, action: Action)
    requires action != Observe
    ensures Session(Start, Offered(id, action) + [LostReport(id)]) ==
            World(Server(map[id := action], map[id := action], map[]), map[id := action], {id}, [Disposed(id, action)])
  {
    OfferedWorld(id, action);
    SessionPush(Start, Offered(id, action), LostReport(id));
  }

  /** The commonest way: the feedback call is lost, and the next refetch takes the button away. */
  lemma HiddenByItsDisposition(id: string)
    ensures var w := Session(Start, Offered(id, Acknowledge) + [LostReport(id)] + [Elsewhere(Refresh({}))]);
            Unreportable(w, id) && id !in w.listed && id in w.server.recommended &&
            InForce(w.server, id) == Some(Acknowledge) == Some(w.server.recommended[id])
  {
    LostReportWorld(id, Acknowledge);
    SessionPush(Start, Offered(id, Acknowledge) + [LostReport(id)], Elsewhere(Refresh({})));
  }

  /** The displayed recommendation was out of date: the page acknowledges, the server asks for suppression. */
  lemma StuckByStaleList(id: string)
    ensures var change := Elsewhere(Recommend(id, Some(Suppress)));
            var w := Session(Start, Offered(id, Acknowledge) + [change] + [Plain(id, Accepted)]);
            Unreportable(w, id) && id in w.listed && id in w.completed
  {
    var change := Elsewhere(Recommend(id, Some(Suppress)));
    OfferedWorld(id, Acknowledge);
    SessionPush(Start, Offered(id, Acknowledge), change);
    SessionPush(Start, Offered(id, Acknowledge) + [change], Plain(id, Accepted));
    var w := Session(Start, Offered(id, Acknowledge) + [change]);
    var mid := AfterDisposal(w, Plain(id, Accepted).press, Acknowledge).0;
    assert DisturbAll(mid, []) == mid;
  }

  /** The suppression ends before the lost feedback is sent again: listed once more, and stuck. */
  lemma StuckByExpiry(id: string)
    ensures var ends := Elsewhere(Dispose(id, None));
            var w := Session(Start, Offered(id, Suppress) + [LostReport(id)] + [ends] + [Elsewhere(Refresh({}))]);
            Unreportable(w, id) && id in w.listed && id in w.completed
  {
    var ends := Elsewhere(Dispose(id, None));
    LostReportWorld(id, Suppress);
    SessionPush(Start, Offered(id, Suppress) + [LostReport(id)], ends);
    SessionPush(Start, Offered(id, Suppress) + [LostReport(id)] + [ends], Elsewhere(Refresh({})));
  }

  /** The feedback call is lost, and at a retry before the next refetch the server recommends only to observe. */
  lemma ReportedAsObserving(id: string)
    ensures var change := Elsewhere(Recommend(id, Some(Observe)));
            var w := Session(Start, Offered(id, Acknowledge) + [LostReport(id)] + [change] + [Plain(id, Accepted)]);
            w.seen == [Disposed(id, Acknowledge), Recorded(id, Accepted, Acknowledge, Observe)] &&
            id in w.server.feedback && !ReportsTruly(w.server.feedback[id])
  {
    var change := Elsewhere(Recommend(id, Some(Observe)));
    LostReportWorld(id, Acknowledge);
    SessionPush(Start, Offered(id, Acknowledge) + [LostReport(id)], change);
    SessionPush(Start, Offered(id, Acknowledge) + [LostReport(id)] + [change], Plain(id, Accepted));
    var w := Session(Start, Offered(id, Acknowledge) + [LostReport(id)] + [change]);
    assert w == World(Server(map[id := Observe], map[id := Acknowledge], map[]), map[id := Acknowledge], {id},
                      [Disposed(id, Acknowledge)]);
    assert DisturbAll(w, []) == w;
  }
}
