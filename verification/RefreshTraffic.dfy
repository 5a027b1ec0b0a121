/** How much traffic the browsing context of SharedRefresh can cause, and that nothing in it hangs. */
module RefreshTraffic {
  import opened Basics
  import opened TokenRegistry
  import opened SharedRefresh

  function Total(f: Task -> nat, tasks: seq<Task>): nat {
    if tasks == [] then 0 else Total(f, tasks[..|tasks| - 1]) + f(tasks[|tasks| - 1])
  }

  lemma {:induction false} TotalUpdate(f: Task -> nat, tasks: seq<Task>, i: nat, task: Task)
    requires i < |tasks|
    ensures Total(f, tasks[i := task]) + f(tasks[i]) == Total(f, tasks) + f(task)
  {
    var n := |tasks| - 1;
    if i < n {
      TotalUpdate(f, tasks[..n], i, task);
      assert tasks[i := task][..n] == tasks[..n][i := task];
    } else {
      assert tasks[i := task][..n] == tasks[..n];
    }
  }

  lemma {:induction false} TotalBound(f: Task -> nat, tasks: seq<Task>, most: nat)
    requires forall i :: 0 <= i < |tasks| ==> f(tasks[i]) <= most
    ensures Total(f, tasks) <= most * |tasks|
  {
    if tasks != [] {
      TotalBound(f, tasks[..|tasks| - 1], most);
    }
  }

  // ----- What one step of a task moves -----

  /** A request that met a 401 with a session, or a mount that restores one. */
  function Charge(task: Task): nat {
    if task.retried || (task.kind.Restore? && !task.phase.Unsent?) then 1 else 0
  }

  function CallWeight(call: Call): nat {
    match call
    case Posted(_) => 6
    case Checked(_) => 5
    case Revoked(_) => 4
    case Replied(_) => 3
    case Arrived(_) => 2
  }

  /** A task that may still start a refresh weighs more than the call it would start. */
  function Weight(task: Task): nat {
    match task.phase
    case Unsent => 10
    case Sent => if task.retried then 1 else 9
    case Awaiting(_) => 2
    case _ => 0
  }

  /** Task `i` lost weight; if it started a refresh call it is charged with it, and it lost more than the
      call weighs. */
  ghost predicate Moved(w: World, w': World, i: nat) {
    && i < |w.tab.tasks| == |w'.tab.tasks|
    && w'.tab.tasks == w.tab.tasks[i := w'.tab.tasks[i]]
    && var (before, after) := (w.tab.tasks[i], w'.tab.tasks[i]);
    if w'.tab.started == w.tab.started then
      Weight(after) < Weight(before) && Charge(before) <= Charge(after)
      && w'.calls == w.calls && w'.tab.promise == w.tab.promise
    else
      Weight(after) + 6 < Weight(before) && Charge(before) + 1 == Charge(after)
      && w'.tab.started == w.tab.started + 1 && w.tab.promise == None && w'.tab.promise == Some(w'.tab.started)
      && w'.calls == w.calls[w'.tab.started := Posted(w.cookie)]
  }

  lemma BeginMoves(w: World, i: nat)
    requires SingleFlight(w) && InPhase(w, i, Unsent)
    ensures Moved(w, WithTab(w, Begin(w.tab, i)), i)
  {
    assert TaskSound(w.tab, w.tab.tasks[i]);
  }

  lemma ResponseMoves(w: World, i: nat, failure: Option<nat>)
    requires SingleFlight(w) && InPhase(w, i, Sent)
    ensures Moved(w, WithTab(w, OnResponse(w.tab, i, failure)), i)
  {
    assert TaskSound(w.tab, w.tab.tasks[i]);
  }

  lemma ResumptionMoves(w: World, i: nat, succeeded: bool)
    requires SingleFlight(w) && i < |w.tab.tasks| && w.tab.tasks[i].phase.Awaiting?
    ensures Moved(w, WithTab(w, AfterRefresh(w.tab, i, succeeded)), i)
  {
    assert TaskSound(w.tab, w.tab.tasks[i]);
  }

  lemma TaskStepMoves(w: World, event: Event)
    requires SingleFlight(w) && TaskStep(w, event) != w
    ensures (event.Begins? || event.Responds? || event.Resumes?) && Moved(w, TaskStep(w, event), event.i)
  {
    match event
    case Begins(i) => BeginMoves(w, i);
    case Responds(i, failure) => ResponseMoves(w, i, failure);
    case Resumes(i) => ResumptionMoves(w, i, w.tab.settled[w.tab.tasks[i].phase.promise]);
    case _ =>
  }

  // ----- Every refresh call has a task to answer for it -----

  ghost predicate Charged(w: World) {
    w.tab.started <= Total(Charge, w.tab.tasks)
  }

  lemma TaskStepKeepsCharged(w: World, event: Event)
    requires SingleFlight(w) && Charged(w)
    ensures Charged(TaskStep(w, event))
  {
    var w' := TaskStep(w, event);
    if w' != w {
      TaskStepMoves(w, event);
      TotalUpdate(Charge, w.tab.tasks, event.i, w'.tab.tasks[event.i]);
    }
  }

  lemma CallStepStartsNothing(w: World, event: Event)
    requires SingleFlight(w)
    ensures CallStep(w, event).tab.tasks == w.tab.tasks && CallStep(w, event).tab.started == w.tab.started
  {
    match event
    case Settles(id) => if id in w.calls && w.calls[id].Arrived? { SettleKeepsFlight(w, id, w.calls[id].answer); }
    case _ =>
  }

  lemma StepKeepsCharged(w: World, event: Event)
    requires SingleFlight(w) && Charged(w)
    ensures Charged(Step(w, event)) && |Step(w, event).tab.tasks| == |w.tab.tasks|
  {
    if TaskStep(w, event) != w {
      TaskStepMoves(w, event);
    }
    TaskStepKeepsCharged(w, event);
    CallStepStartsNothing(w, event);
  }

  lemma {:induction false} RunKeepsCharged(page: Page, events: seq<Event>)
    ensures Charged(Run(page, events)) && |Run(page, events).tab.tasks| == |page.kinds|
  {
    if events != [] {
      RunKeepsCharged(page, events[..|events| - 1]);
      RunKeepsFlight(page, events[..|events| - 1]);
      StepKeepsCharged(Run(page, events[..|events| - 1]), events[|events| - 1]);
    }
  }

  /** A refresh response starts no other refresh, whatever its status: in every run there are at most as
      many refresh calls as tasks that met a 401 or restored a session, hence no more than tasks. */
  lemma EveryRefreshIsCharged(page: Page, events: seq<Event>)
    ensures var w := Run(page, events);
      w.tab.started <= Total(Charge, w.tab.tasks) <= |w.tab.tasks| == |page.kinds|
  {
    RunKeepsCharged(page, events);
    TotalBound(Charge, Run(page, events).tab.tasks, 1);
  }

  // ----- A decreasing measure -----

  function Measure(w: World): nat {
    Total(Weight, w.tab.tasks)
    + if w.tab.promise.Some? && w.tab.promise.value in w.calls then CallWeight(w.calls[w.tab.promise.value]) else 0
  }

  lemma TaskStepDecreases(w: World, event: Event)
    requires SingleFlight(w)
    ensures TaskStep(w, event) == w || Measure(TaskStep(w, event)) < Measure(w)
  {
    var w' := TaskStep(w, event);
    if w' != w {
      TaskStepMoves(w, event);
      TotalUpdate(Weight, w.tab.tasks, event.i, w'.tab.tasks[event.i]);
    }
  }

  lemma CallStepDecreases(w: World, event: Event)
    requires SingleFlight(w)
    ensures CallStep(w, event) == w || Measure(CallStep(w, event)) < Measure(w)
  {
    CallStepStartsNothing(w, event);
    match event
    case Settles(id) => if id in w.calls && w.calls[id].Arrived? { SettleKeepsFlight(w, id, w.calls[id].answer); }
    case _ =>
  }

  /** How many steps of a run, other than what happens elsewhere, did something. */
  function Effective(page: Page, events: seq<Event>): nat {
    if events == [] then 0
    else
      var (earlier, event) := (events[..|events| - 1], events[|events| - 1]);
      Effective(page, earlier) + if !event.Elsewhere? && Step(Run(page, earlier), event) != Run(page, earlier) then 1 else 0
  }

  /** However the steps interleave and whatever the server answers, finitely many tasks cause finitely much
      traffic: ten steps for each, counting those of the refresh calls they share. */
  lemma {:induction false} TrafficIsBounded(page: Page, events: seq<Event>)
    ensures Effective(page, events) + Measure(Run(page, events)) <= 10 * |page.kinds|
  {
    if events == [] {
      TotalBound(Weight, Tasks(page.kinds), 10);
    } else {
      var (earlier, event) := (events[..|events| - 1], events[|events| - 1]);
      TrafficIsBounded(page, earlier);
      RunKeepsFlight(page, earlier);
      TaskStepDecreases(Run(page, earlier), event);
      CallStepDecreases(Run(page, earlier), event);
    }
  }

  predicate Finished(task: Task) {
    task.phase.Fulfilled? || task.phase.Rejected?
  }

  lemma {:induction false} UnusedJti(used: set<Jti>) returns (jti: Jti)
    ensures forall other :: other in used ==> other < jti
  {
    jti := 0;
    if used != {} {
      var one :| one in used;
      var rest := UnusedJti(used - {one});
      jti := if one < rest then rest else one + 1;
      assert forall other :: other in used ==> other == one || other in used - {one};
    }
  }

  lemma CallCanMove(w: World, id: nat) returns (event: Event)
    requires SingleFlight(w) && id in w.calls
    ensures !event.Elsewhere? && Step(w, event) != w
  {
    match w.calls[id]
    case Posted(_) => event := Checks(id, Answered);
    case Checked(_) => event := Revokes(id, Answered);
    case Revoked(_) =>
      var jti := UnusedJti(w.server.used);
      event := Issues(id, jti, true, Answered);
    case Replied(_) => event := Arrives(id);
    case Arrived(answer) =>
      event := Settles(id);
      SettleKeepsFlight(w, id, answer);
    assert CallStep(w, event).calls != w.calls;
  }

  lemma TaskCanMove(w: World, event: Event)
    requires SingleFlight(w) && (event.Begins? || event.Responds? || event.Resumes?) && event.i < |w.tab.tasks|
    requires match w.tab.tasks[event.i].phase
      case Unsent => event.Begins?
      case Sent => event.Responds? && event.failure.None?
      case Awaiting(promise) => event.Resumes? && promise in w.tab.settled
      case _ => false
    ensures TaskStep(w, event) != w
  {
    assert TaskStep(w, event).tab.tasks[event.i].phase != w.tab.tasks[event.i].phase;
  }

  /** Nothing hangs: as long as a task is unfinished, some step of the context, the network or the server
      does something. With the bound on such steps, every run that is given them finishes every task. */
  lemma NothingHangs(page: Page, events: seq<Event>, i: nat) returns (event: Event)
    requires i < |Run(page, events).tab.tasks| && !Finished(Run(page, events).tab.tasks[i])
    ensures !event.Elsewhere? && Effective(page, events + [event]) == Effective(page, events) + 1
  {
    var w := Run(page, events);
    var task := w.tab.tasks[i];
    RunKeepsFlight(page, events);
    assert TaskSound(w.tab, task);
    if task.phase.Awaiting? && task.phase.promise !in w.tab.settled {
      event := CallCanMove(w, task.phase.promise);
    } else {
      event := if task.phase.Unsent? then Begins(i) else if task.phase.Sent? then Responds(i, None) else Resumes(i);
      TaskCanMove(w, event);
    }
    assert (events + [event])[..|events|] == events;
  }
}
