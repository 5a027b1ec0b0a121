/** What becomes of each request of the browsing context of SharedRefresh, over whole runs
    (frontend-web/src/api/auth-interceptors.ts). */
module RequestOutcomes {
  import opened Basics
  import opened TokenRegistry
  import opened SharedRefresh

  // ----- Only a 401 is retried -----

  /** The event answers the first sending of request `i` with a 401, while there is a session. */
  predicate Is401(w: World, event: Event, i: nat) {
    && event == Responds(i, Some(401)) && i < |w.tab.tasks| && w.tab.tasks[i].phase.Sent?
    && |w.tab.tasks[i].bearers| == 1 && w.tab.session.Some?
  }

  ghost predicate Met401(page: Page, events: seq<Event>, i: nat) {
    events != [] &&
    (Met401(page, events[..|events| - 1], i) || Is401(Run(page, events[..|events| - 1]), events[|events| - 1], i))
  }

  lemma ResponseRetriesExactly(w: World, i: nat, failure: Option<nat>)
    requires SingleFlight(w) && i < |w.tab.tasks| && w.tab.tasks[i].phase.Sent?
    ensures OnResponse(w.tab, i, failure).tasks[i].retried
       <==> w.tab.tasks[i].retried || Is401(w, Responds(i, failure), i)
    ensures forall j :: 0 <= j < |w.tab.tasks| && j != i ==> OnResponse(w.tab, i, failure).tasks[j] == w.tab.tasks[j]
  {
    assert TaskSound(w.tab, w.tab.tasks[i]);
  }

  lemma StepRetriesExactly(w: World, event: Event, i: nat)
    requires SingleFlight(w) && i < |w.tab.tasks|
    ensures i < |Step(w, event).tab.tasks|
    ensures Step(w, event).tab.tasks[i].retried <==> w.tab.tasks[i].retried || Is401(w, event, i)
  {
    match event
    case Responds(j, failure) =>
      if InPhase(w, j, Sent) {
        ResponseRetriesExactly(w, j, failure);
      }
    case _ =>
  }

  lemma {:induction false} TaskCount(page: Page, events: seq<Event>)
    ensures |Run(page, events).tab.tasks| == |page.kinds|
    ensures forall i :: 0 <= i < |page.kinds| ==> Run(page, events).tab.tasks[i].kind == page.kinds[i]
  {
    if events != [] {
      TaskCount(page, events[..|events| - 1]);
    }
  }

  /** In every run a request has been retried if and only if its first sending was answered 401 while there was
      a session. */
  lemma {:induction false} RetriedIffMet401(page: Page, events: seq<Event>, i: nat)
    requires i < |page.kinds|
    ensures i < |Run(page, events).tab.tasks|
    ensures Run(page, events).tab.tasks[i].retried <==> Met401(page, events, i)
  {
    TaskCount(page, events);
    if events != [] {
      var earlier := events[..|events| - 1];
      RetriedIffMet401(page, earlier, i);
      RunKeepsFlight(page, earlier);
      StepRetriesExactly(Run(page, earlier), events[|events| - 1], i);
    }
  }

  /** So without one it is sent at most once. */
  lemma SentOnceWithout401(page: Page, events: seq<Event>, i: nat)
    requires i < |page.kinds| && !Met401(page, events, i)
    ensures i < |Run(page, events).tab.tasks| && |Run(page, events).tab.tasks[i].bearers| <= 1
  {
    RetriedIffMet401(page, events, i);
    RunKeepsFlight(page, events);
    assert TaskSound(Run(page, events).tab, Run(page, events).tab.tasks[i]);
  }

  // ----- What a response does -----

  /** Any other failure of a first sending, and a 401 without a session, rejects the request and changes nothing
      else: no refresh starts, and the session stays as it was. */
  lemma OtherFailuresReject(w: World, i: nat, failure: nat)
    requires SingleFlight(w) && InPhase(w, i, Sent) && |w.tab.tasks[i].bearers| == 1
    requires failure != 401 || w.tab.session.None?
    ensures Step(w, Responds(i, Some(failure)))
         == w.(tab := w.tab.(tasks := w.tab.tasks[i := w.tab.tasks[i].(phase := Rejected)]))
  {
    assert TaskSound(w.tab, w.tab.tasks[i]);
  }

  /** A 401 of a first sending, with a session, waits for the refresh in flight, or for the one it posts; the
      session stays. */
  lemma First401Awaits(w: World, i: nat)
    requires SingleFlight(w) && InPhase(w, i, Sent) && |w.tab.tasks[i].bearers| == 1 && w.tab.session.Some?
    ensures var w' := Step(w, Responds(i, Some(401)));
      && w'.tab.promise.Some? && w'.tab.tasks[i].phase == Awaiting(w'.tab.promise.value) && w'.tab.tasks[i].retried
      && w'.tab.session == w.tab.session && w'.cookie == w.cookie
      && if w.tab.promise.Some? then w'.tab.promise == w.tab.promise && w'.calls == w.calls
         else w'.calls == map[w'.tab.promise.value := Posted(w.cookie)]
  {
    assert TaskSound(w.tab, w.tab.tasks[i]);
  }

  /** A refused replay, whatever its status, rejects the request and ends the session. */
  lemma RefusedReplayEndsSession(w: World, i: nat, failure: nat)
    requires SingleFlight(w) && InPhase(w, i, Sent) && |w.tab.tasks[i].bearers| == 2
    ensures var w' := Step(w, Responds(i, Some(failure)));
      && w'.tab.tasks[i].phase == Rejected && w'.tab.session == None && w'.calls == w.calls && w'.cookie == w.cookie
      && (w.tab.session.Some? ==> w'.tab.purged)
  {
    assert TaskSound(w.tab, w.tab.tasks[i]);
  }

  /** Request `i` was answered in the 2xx family. */
  ghost predicate MetSuccess(page: Page, events: seq<Event>, i: nat) {
    events != [] &&
    (MetSuccess(page, events[..|events| - 1], i)
     || (events[|events| - 1] == Responds(i, None) && InPhase(Run(page, events[..|events| - 1]), i, Sent)))
  }

  lemma ResponseFulfilsExactly(w: World, i: nat, failure: Option<nat>)
    requires SingleFlight(w) && InPhase(w, i, Sent)
    ensures OnResponse(w.tab, i, failure).tasks[i].phase.Fulfilled? <==> failure.None?
    ensures |OnResponse(w.tab, i, failure).tasks| == |w.tab.tasks|
    ensures forall j :: 0 <= j < |w.tab.tasks| && j != i ==> OnResponse(w.tab, i, failure).tasks[j] == w.tab.tasks[j]
  {
    assert TaskSound(w.tab, w.tab.tasks[i]);
  }

  lemma CallStepTouchesNoTask(w: World, event: Event)
    requires SingleFlight(w)
    ensures CallStep(w, event).tab.tasks == w.tab.tasks
  {
  }

  lemma OtherStepFulfilsNothing(w: World, event: Event, i: nat)
    requires SingleFlight(w) && i < |w.tab.tasks| && w.tab.tasks[i].kind.Request? && !event.Responds?
    ensures i < |Step(w, event).tab.tasks|
    ensures Step(w, event).tab.tasks[i].phase.Fulfilled? <==> w.tab.tasks[i].phase.Fulfilled?
  {
    if !event.Elsewhere? && !event.Begins? && !event.Resumes? {
      CallStepTouchesNoTask(w, event);
    }
  }

  lemma StepFulfilsExactly(w: World, event: Event, i: nat)
    requires SingleFlight(w) && i < |w.tab.tasks| && w.tab.tasks[i].kind.Request?
    ensures i < |Step(w, event).tab.tasks|
    ensures Step(w, event).tab.tasks[i].phase.Fulfilled?
       <==> w.tab.tasks[i].phase.Fulfilled? || (event == Responds(i, None) && InPhase(w, i, Sent))
  {
    if event.Responds? {
      if InPhase(w, event.i, Sent) {
        ResponseFulfilsExactly(w, event.i, event.failure);
      }
    } else {
      OtherStepFulfilsNothing(w, event, i);
    }
  }

  /** In every run a request is fulfilled if and only if one of its sendings was answered with success. */
  lemma {:induction false} FulfilledIffAnswered(page: Page, events: seq<Event>, i: nat)
    requires i < |page.kinds| && page.kinds[i].Request?
    ensures i < |Run(page, events).tab.tasks|
    ensures Run(page, events).tab.tasks[i].phase.Fulfilled? <==> MetSuccess(page, events, i)
  {
    TaskCount(page, events);
    if events != [] {
      var earlier := events[..|events| - 1];
      TaskCount(page, earlier);
      FulfilledIffAnswered(page, earlier, i);
      RunKeepsFlight(page, earlier);
      StepFulfilsExactly(Run(page, earlier), events[|events| - 1], i);
    }
  }

  // ----- What the refresh does -----

  /** A request carries the session's token when it is first sent, and again after its refresh succeeded: the
      very token that refresh brought, if the session was not purged or renewed in between. */
  lemma SendingCarriesTheSession(w: World, i: nat)
    requires SingleFlight(w) && i < |w.tab.tasks| && w.tab.tasks[i].kind.Request?
    ensures w.tab.tasks[i].phase.Unsent? ==>
      Step(w, Begins(i)).tab.tasks[i] == Task(Request, Sent, false, [w.tab.session])
    ensures var task := w.tab.tasks[i];
      task.phase.Awaiting? && task.phase.promise in w.tab.settled && w.tab.settled[task.phase.promise] && w.tab.session.Some? ==>
        Step(w, Resumes(i)).tab.tasks[i] == Task(Request, Sent, true, task.bearers + [w.tab.session])
  {
    assert TaskSound(w.tab, w.tab.tasks[i]);
    assert [] + [w.tab.session] == [w.tab.session];
  }

  /** A granted refresh puts its token in the cookie and its session in memory; a denied one changes neither. */
  lemma RefreshSettles(w: World, id: nat, answer: Answer)
    requires SingleFlight(w) && id in w.calls && w.calls[id] == Replied(answer)
    ensures var w' := Step(Step(w, Arrives(id)), Settles(id));
      && w'.tab.promise == None && w'.calls == map[] && w'.tab.tasks == w.tab.tasks
      && w'.tab.settled == w.tab.settled[id := answer.Granted?]
      && w'.cookie == (if answer.Granted? then Some(answer.jti) else w.cookie)
      && w'.tab.session == (if answer.Granted? then Some(id) else w.tab.session)
  {
    var arrived := Step(w, Arrives(id));
    assert arrived == Move(w, id, Arrived(answer)).(cookie := if answer.Granted? then Some(answer.jti) else w.cookie);
    assert arrived.calls.Keys == w.calls.Keys;
    SettleKeepsFlight(arrived, id, answer);
  }

  /** When the shared refresh was denied, whoever awaited it is rejected and the session is gone. */
  lemma DeniedRefreshPurges(w: World, i: nat)
    requires i < |w.tab.tasks| && w.tab.tasks[i].phase.Awaiting?
    requires w.tab.tasks[i].phase.promise in w.tab.settled && !w.tab.settled[w.tab.tasks[i].phase.promise]
    ensures var w' := Step(w, Resumes(i));
      w'.tab.tasks == w.tab.tasks[i := w.tab.tasks[i].(phase := Rejected)] && w'.tab.session == None
  {
  }

  /** A mount awaits the refresh in flight, or the one it posts, and ends with it: fulfilled with the session as
      that left it, if it succeeded. It never sends anything. */
  lemma MountFollowsTheRefresh(w: World, i: nat)
    requires SingleFlight(w) && i < |w.tab.tasks| && w.tab.tasks[i].kind.Restore?
    ensures w.tab.tasks[i].phase.Unsent? ==>
      var w' := Step(w, Begins(i));
      && w'.tab.promise.Some? && w'.tab.tasks == w.tab.tasks[i := Task(Restore, Awaiting(w'.tab.promise.value), false, [])]
      && w'.tab.started == w.tab.started + (if w.tab.promise.None? then 1 else 0) && w'.tab.session == w.tab.session
    ensures var task := w.tab.tasks[i];
      task.phase.Awaiting? && task.phase.promise in w.tab.settled && w.tab.settled[task.phase.promise] ==>
        Step(w, Resumes(i)) == w.(tab := w.tab.(tasks := w.tab.tasks[i := Task(Restore, Fulfilled, false, [])]))
  {
    assert TaskSound(w.tab, w.tab.tasks[i]);
  }
}
