/**
What a report, a disposition and a press do, case by case, and what holds of recorded feedback over
every session: it never changes, and what the page saw recorded is what the server holds.
*/
module RecommendationLaws {
  import opened Wrappers
  import opened RecommendationSaga

  // ---------------------------------------------------------------- one report

  /** What an accepted report needs besides an active alert. */
  ghost predicate Acceptable(s: Server, id: string, alternative: Option<Action>)
    requires id in s.recommended
  {
    alternative == None &&
    (s.recommended[id] == Observe || (id in s.dispositions && s.dispositions[id] == s.recommended[id]))
  }

  /**
  A confirmed report succeeds if and only if it repeats the recorded decision, or nothing is recorded,
  the alert is active, and it is either acceptable or a rejection in favour of another action.
  */
  lemma ReportSucceeds(s: Server, id: string, confirmed: bool, decision: Decision, alternative: Option<Action>)
    ensures Report(s, id, confirmed, decision, alternative).Ok? <==>
            confirmed &&
            if id in s.feedback then s.feedback[id].decision == decision
            else id in s.recommended &&
                 if decision == Accepted then Acceptable(s, id, alternative)
                 else alternative != Some(s.recommended[id])
  {
  }

  /** A success records the current recommendation where nothing was recorded, and changes nothing else. */
  lemma ReportRecords(
    s: Server, id: string, confirmed: bool, decision: Decision, alternative: Option<Action>, after: Server)
    requires Report(s, id, confirmed, decision, alternative) == Ok(after)
    ensures id in after.feedback && after.feedback[id].decision == decision
    ensures if id in s.feedback then after == s
            else id in s.recommended &&
                 after.recommended == s.recommended && after.dispositions == s.dispositions &&
                 after.feedback - {id} == s.feedback - {id} &&
                 after.feedback[id].action == s.recommended[id] && after.feedback[id].alternative == alternative &&
                 after.feedback[id].inForce == if id in s.dispositions then Some(s.dispositions[id]) else None
  {
  }

  /** Which refusal is given, in the order of the checks; a refusal changes nothing. */
  lemma ReportRefuses(s: Server, id: string, confirmed: bool, decision: Decision, alternative: Option<Action>)
    requires Report(s, id, confirmed, decision, alternative).Err?
    ensures var refusal := Report(s, id, confirmed, decision, alternative).error;
            match refusal
            case Unconfirmed => !confirmed
            case OtherDecision => confirmed && id in s.feedback && s.feedback[id].decision != decision
            case NotActive => confirmed && id !in s.feedback && id !in s.recommended
            case AlternativeOnAcceptance =>
              confirmed && id !in s.feedback && id in s.recommended && decision == Accepted && alternative != None
            case AlternativeRepeats =>
              confirmed && id !in s.feedback && id in s.recommended && decision == Rejected &&
              alternative == Some(s.recommended[id])
            case NotDisposed =>
              confirmed && id !in s.feedback && id in s.recommended && decision == Accepted && alternative == None &&
              s.recommended[id] != Observe && (id !in s.dispositions || s.dispositions[id] != s.recommended[id])
  {
  }

  /** A report that contradicts the recorded decision is refused, and leaves everything as it is. */
  lemma ContradictionRefused(w: World, id: string, confirmed: bool, decision: Decision, alternative: Option<Action>)
    requires id in w.server.feedback && w.server.feedback[id].decision != decision
    ensures Report(w.server, id, confirmed, decision, alternative).Err?
    ensures Disturb(w, Tell(id, confirmed, decision, alternative)) == w
  {
  }

  // ---------------------------------------------------------------- one press

  /**
  The page disposes of the alert if and only if it accepts an acting recommendation not yet disposed
  of; the shown action is then put in force, if the call arrives while the alert is active, and the
  page goes on if and only if it is answered.
  */
  lemma DisposalExact(w: World, p: Press, shown: Action)
    ensures var (t, known) := AfterDisposal(w, p, shown);
            var arrives := p.disposal != Lost && p.id in w.server.recommended;
            t.listed == w.listed && t.server.recommended == w.server.recommended &&
            t.server.feedback == w.server.feedback &&
            if p.decision == Rejected || shown == Observe || p.id in w.completed then t == w && known
            else
              (known <==> arrives && p.disposal == Answered) &&
              t.server.dispositions ==
              (if arrives then w.server.dispositions[p.id := shown] else w.server.dispositions) &&
              t.completed == (if known then w.completed + {p.id} else w.completed) &&
              t.seen == if known then w.seen + [Disposed(p.id, shown)] else w.seen
  {
  }

  /** The world when the report arrives, and what it is answered. */
  ghost function Answer(w: World, p: Press, shown: Action): Result<Server, Refusal> {
    Report(DisturbAll(AfterDisposal(w, p, shown).0, p.between).server, p.id, true, p.decision,
           if p.decision == Accepted then None else p.alternative)
  }

  /** A press fails before any call, at the disposition, or at the report, and only then. */
  lemma PressFails(w: World, p: Press, shown: Action)
    ensures Submit(w, p, shown).1 ==
            if p.decision == Rejected && p.id in w.completed then Some(AlreadyDisposed)
            else if p.decision == Accepted && shown != Observe && p.id !in w.completed &&
                    (p.disposal != Answered || p.id !in w.server.recommended) then Some(DispositionFailed)
            else if p.report != Answered then Some(FeedbackFailed(None))
            else if Answer(w, p, shown).Err? then Some(FeedbackFailed(Some(Answer(w, p, shown).error)))
            else None
  {
  }

  /** A press that succeeds is noted with what the server recorded, and the alert is forgotten. */
  lemma PressSucceeds(w: World, p: Press, shown: Action)
    requires Submit(w, p, shown).1 == None
    ensures var t := Submit(w, p, shown).0;
            Answer(w, p, shown) == Ok(t.server) && p.id in t.server.feedback &&
            t.completed == AtReport(w, p, shown).completed - {p.id} &&
            t.listed == AtReport(w, p, shown).listed &&
            t.seen == AtReport(w, p, shown).seen +
                      [Recorded(p.id, p.decision, shown, t.server.feedback[p.id].action)]
  {
  }

  /** A report whose answer does not come is recorded all the same; one that is lost or refused is not. */
  lemma PressUnanswered(w: World, p: Press, shown: Action)
    requires Submit(w, p, shown).1.Some? && Submit(w, p, shown).1.value.FeedbackFailed?
    ensures var at, t := AtReport(w, p, shown), Submit(w, p, shown).0;
            t.listed == at.listed && t.completed == at.completed && t.seen == at.seen &&
            if p.report == Unanswered && Answer(w, p, shown).Ok? then Answer(w, p, shown) == Ok(t.server)
            else t.server == at.server
  {
  }

  /** A press that fails earlier leaves the world as the disposition left it. */
  lemma PressStopped(w: World, p: Press, shown: Action)
    requires Submit(w, p, shown).1 in {Some(AlreadyDisposed), Some(DispositionFailed)}
    ensures Submit(w, p, shown).0 == AfterDisposal(w, p, shown).0
  {
  }

  /** On an up-to-date list every undisturbed, answered acceptance goes through in one press. */
  lemma {:induction false} AcceptanceGoesThrough(w: World, id: string)
    requires id in w.listed && id in w.server.recommended && w.listed[id] == w.server.recommended[id]
    requires id !in w.server.feedback && id !in w.completed
    ensures var action := w.server.recommended[id];
            var t := Step(w, Plain(id, Accepted));
            var inForce := if action != Observe then Some(action)
                           else if id in w.server.dispositions then Some(w.server.dispositions[id]) else None;
            t.server.feedback == w.server.feedback[id := Feedback(Accepted, action, None, inForce)] &&
            t.seen == w.seen + (if action == Observe then [] else [Disposed(id, action)]) +
                      [Recorded(id, Accepted, action, action)] &&
            t.completed == w.completed
  {
    var p := Plain(id, Accepted).press;
    var mid := AfterDisposal(w, p, w.listed[id]).0;
    assert DisturbAll(mid, []) == mid;
  }

  // ---------------------------------------------------------------- what others do

  /** What happens elsewhere changes one thing each. */
  lemma DisturbExact(w: World, o: Other)
    ensures Disturb(w, o) ==
            match o
            case Dispose(id, inForce) =>
              if inForce == Some(Acknowledge) then
                w.(server := w.server.(dispositions := w.server.dispositions[id := Acknowledge]))
              else if inForce == Some(Suppress) then
                w.(server := w.server.(dispositions := w.server.dispositions[id := Suppress]))
              else w.(server := w.server.(dispositions := w.server.dispositions - {id}))
            case Tell(id, confirmed, decision, alternative) =>
              var answer := Report(w.server, id, confirmed, decision, alternative);
              if answer.Ok? then w.(server := answer.value) else w
            case Recommend(id, None) => w.(server := w.server.(recommended := w.server.recommended - {id}))
            case Recommend(id, Some(action)) =>
              w.(server := w.server.(recommended := w.server.recommended[id := action]))
            case Refresh(hidden) => w.(listed := Disturb(w, o).listed)
  {
  }

  /** A fetched list has the active alerts without disposition and feedback, as they are recommended. */
  lemma RefreshExact(w: World, hidden: set<string>, id: string)
    ensures var listed := Disturb(w, Refresh(hidden)).listed;
            (id in listed <==> id in w.server.recommended && id !in w.server.dispositions &&
                               id !in w.server.feedback && id !in hidden) &&
            (id in listed ==> listed[id] == w.server.recommended[id])
  {
  }

  /** Everything happens in order, and only listed alerts can be pressed. */
  lemma {:induction false} InOrder(w: World, others: seq<Other>, o: Other, events: seq<Event>, p: Press)
    ensures DisturbAll(w, []) == w && DisturbAll(w, others + [o]) == Disturb(DisturbAll(w, others), o)
    ensures Session(w, []) == w && Session(w, events + [Elsewhere(o)]) == Disturb(Session(w, events), o)
    ensures var at := Session(w, events);
            Session(w, events + [Pressed(p)]) ==
            if p.id in at.listed then Submit(at, p, at.listed[p.id]).0 else at
  {
    assert (others + [o])[..|others|] == others;
    SessionPush(w, events, Elsewhere(o));
    SessionPush(w, events, Pressed(p));
  }

  // ---------------------------------------------------------------- recorded feedback

  /** `t` still holds every feedback that `s` held. */
  ghost predicate Holds(s: Server, t: Server) {
    forall id :: id in s.feedback ==> id in t.feedback && t.feedback[id] == s.feedback[id]
  }

  lemma {:induction false} OthersHold(w: World, events: seq<Other>)
    ensures Holds(w.server, DisturbAll(w, events).server)
  {
    if events != [] {
      OthersHold(w, events[..|events| - 1]);
    }
  }

  lemma DisposalHolds(w: World, p: Press, shown: Action)
    ensures AfterDisposal(w, p, shown).0.server.feedback == w.server.feedback
  {
  }

  lemma ReportHolds(w: World, p: Press, shown: Action)
    ensures Holds(w.server, AfterReport(w, p, shown).0.server)
  {
  }

  lemma {:induction false} SubmitHolds(w: World, p: Press, shown: Action)
    ensures Holds(w.server, Submit(w, p, shown).0.server)
  {
    DisposalHolds(w, p, shown);
    var mid, at := AfterDisposal(w, p, shown).0, AtReport(w, p, shown);
    OthersHold(mid, p.between);
    ReportHolds(at, p, shown);
    var t := Submit(w, p, shown).0;
    assert t == w || t == mid || t == AfterReport(at, p, shown).0;
  }

  lemma StepHolds(w: World, e: Event)
    ensures Holds(w.server, Step(w, e).server)
  {
    match e
    case Pressed(p) => if p.id in w.listed { SubmitHolds(w, p, w.listed[p.id]); }
    case Elsewhere(o) => OthersHold(w, [o]); OneDisturbance(w, o);
  }

  /** Recorded feedback never changes, whatever the page and everybody else do. */
  lemma {:induction false} FeedbackNeverChanges(w: World, events: seq<Event>, id: string)
    requires id in w.server.feedback
    ensures id in Session(w, events).server.feedback
    ensures Session(w, events).server.feedback[id] == w.server.feedback[id]
  {
    if events != [] {
      FeedbackNeverChanges(w, events[..|events| - 1], id);
      StepHolds(Session(w, events[..|events| - 1]), events[|events| - 1]);
    }
  }

  /** One entry of the page's record is backed by the server. */
  ghost predicate Backed(o: Observation, s: Server) {
    o.Recorded? ==>
      o.lifecycleId in s.feedback && s.feedback[o.lifecycleId].decision == o.decision &&
      s.feedback[o.lifecycleId].action == o.action
  }

  ghost predicate AllBacked(seen: seq<Observation>, s: Server) {
    forall i :: 0 <= i < |seen| ==> Backed(seen[i], s)
  }

  lemma BackedStays(seen: seq<Observation>, s: Server, t: Server)
    requires AllBacked(seen, s) && Holds(s, t)
    ensures AllBacked(seen, t)
  {
    forall i | 0 <= i < |seen| ensures Backed(seen[i], t) {
      assert Backed(seen[i], s);
    }
  }

  /** A press adds to the record only what is backed. */
  lemma {:induction false} SubmitAdds(w: World, p: Press, shown: Action)
    ensures var t := Submit(w, p, shown).0;
            w.seen <= t.seen && forall i :: |w.seen| <= i < |t.seen| ==> Backed(t.seen[i], t.server)
  {
    var mid, at, t := AfterDisposal(w, p, shown).0, AtReport(w, p, shown), Submit(w, p, shown).0;
    DisposalExact(w, p, shown);
    DisturbKeeps(mid, p.between);
    if Submit(w, p, shown).1 == None {
      PressSucceeds(w, p, shown);
      ReportRecords(at.server, p.id, true, p.decision, if p.decision == Accepted then None else p.alternative,
                    t.server);
    } else if Submit(w, p, shown).1.value.FeedbackFailed? {
      PressUnanswered(w, p, shown);
    } else {
      PressStopped(w, p, shown);
    }
  }

  lemma {:induction false} SubmitBacked(w: World, p: Press, shown: Action)
    requires AllBacked(w.seen, w.server)
    ensures AllBacked(Submit(w, p, shown).0.seen, Submit(w, p, shown).0.server)
  {
    var t := Submit(w, p, shown).0;
    SubmitHolds(w, p, shown);
    BackedStays(w.seen, w.server, t.server);
    SubmitAdds(w, p, shown);
    forall i | 0 <= i < |t.seen| ensures Backed(t.seen[i], t.server) {
      assert i < |w.seen| ==> t.seen[i] == w.seen[i] && Backed(w.seen[i], t.server);
    }
  }

  /** Whatever the page has seen recorded, with decision and action, is what the server holds, in every session. */
  lemma {:induction false} SeenIsRecorded(events: seq<Event>)
    ensures var w := Session(Start, events);
            forall i :: 0 <= i < |w.seen| && w.seen[i].Recorded? ==>
              w.seen[i].lifecycleId in w.server.feedback &&
              w.server.feedback[w.seen[i].lifecycleId].decision == w.seen[i].decision &&
              w.server.feedback[w.seen[i].lifecycleId].action == w.seen[i].action
  {
    SessionBacked(events);
    var w := Session(Start, events);
    forall i | 0 <= i < |w.seen| ensures Backed(w.seen[i], w.server) {
    }
  }

  lemma {:induction false} SessionBacked(events: seq<Event>)
    ensures AllBacked(Session(Start, events).seen, Session(Start, events).server)
  {
    if events != [] {
      var before, last := Session(Start, events[..|events| - 1]), events[|events| - 1];
      SessionBacked(events[..|events| - 1]);
      StepHolds(before, last);
      match last
      case Pressed(p) =>
        if p.id in before.listed { SubmitBacked(before, p, before.listed[p.id]); }
      case Elsewhere(o) =>
        BackedStays(before.seen, before.server, Step(before, last).server);
    }
  }
}
