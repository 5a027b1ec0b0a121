/** The browsing context of SharedRefresh composed with the server's rotation: the cookie stays live
    although each rotation is three separate steps, as long as nothing else takes the token away. */
module SharedRotation {
  import opened Basics
  import opened TokenRegistry
  import Sessions
  import opened SharedRefresh

  // ----- What is assumed of a run -----

  /** The outstanding refresh call, if any. */
  function Pending(w: World): Option<Call> {
    if w.tab.promise.Some? && w.tab.promise.value in w.calls then Some(w.calls[w.tab.promise.value]) else None
  }

  /** The tokens the context depends on: its cookie, and one on its way to become its cookie. */
  function OwnTokens(w: World): set<Jti> {
    (if w.cookie.Some? then {w.cookie.value} else {})
    + (if Pending(w).Some? && Pending(w).value.Replied? && Pending(w).value.answer.Granted? then {Pending(w).value.answer.jti} else {})
  }

  /** Redis and the network answer, the account exists, and nobody else revokes the context's token. Nothing
      is asked of how requests are answered. */
  ghost predicate Calm(w: World, event: Event) {
    match event
    case Elsewhere(RevokeEvent(jti)) => jti !in OwnTokens(w)
    case Elsewhere(DeleteKeysEvent(k)) => k < |w.server.sweeps| ==> w.server.sweeps[k].members !! OwnTokens(w)
    case Checks(_, reply) => reply.Answered?
    case Revokes(_, reply) => reply.Answered?
    case Issues(_, _, userExists, reply) => userExists && reply.Answered?
    case Loses(_) => false
    case _ => true
  }

  ghost predicate Unexpired(w: World) {
    forall jti :: jti in OwnTokens(w) && jti in w.server.tokens.keys ==> w.server.tokens.keys[jti].Live(w.server.now)
  }

  ghost predicate CalmRun(page: Page, events: seq<Event>) {
    && Unexpired(Run(page, events))
    && (events != [] ==>
          CalmRun(page, events[..|events| - 1]) && Calm(Run(page, events[..|events| - 1]), events[|events| - 1]))
  }

  /** The page was opened with the cookie of a live session. */
  ghost predicate SignedIn(page: Page) {
    page.cookie.Some? && Owned(page.server)
    && page.cookie.value in page.server.tokens.keys && page.server.tokens.keys[page.cookie.value].value == page.user
  }

  // ----- What every calm run keeps -----

  ghost predicate Held(w: World, jti: Jti) {
    jti in w.server.tokens.keys && w.server.tokens.keys[jti].value == w.user
  }

  /** At each stage of a rotation, who holds the one live token of the context. */
  ghost predicate CookieHeld(w: World) {
    w.cookie.Some? &&
    match Pending(w)
    case None => Held(w, w.cookie.value)
    case Some(Posted(cookie)) => cookie == w.cookie && Held(w, w.cookie.value)
    case Some(Checked(jti)) => w.cookie == Some(jti) && Held(w, jti)
    case Some(Revoked(_)) => true
    case Some(Replied(Granted(jti))) => Held(w, jti)
    case Some(Arrived(Granted(jti))) => w.cookie == Some(jti) && Held(w, jti)
    case _ => false
  }

  predicate RefusedReplay(task: Task) {
    task.retried && task.phase.Rejected?
  }

  ghost predicate HasRefusedReplay(tab: Tab) {
    exists i :: 0 <= i < |tab.tasks| && RefusedReplay(tab.tasks[i])
  }

  /** A session in memory is lost exactly by a refused replay. */
  ghost predicate ClientKept(tab: Tab, signedIn: bool) {
    && (forall call :: call in tab.settled ==> tab.settled[call])
    && (tab.session.None? && !tab.purged ==> tab.issued == 0 && !signedIn)
    && (forall i :: 0 <= i < |tab.tasks| && tab.tasks[i].retried ==> tab.session.Some? || tab.purged)
    && (tab.purged <==> HasRefusedReplay(tab))
  }

  ghost predicate Coherent(w: World, signedIn: bool) {
    SingleFlight(w) && Owned(w.server) && CookieHeld(w) && ClientKept(w.tab, signedIn)
  }

  // ----- The client's side -----

  lemma RefusalsStay(tab: Tab, i: nat, task: Task)
    requires i < |tab.tasks| && !RefusedReplay(tab.tasks[i])
    ensures HasRefusedReplay(tab.(tasks := tab.tasks[i := task])) <==> HasRefusedReplay(tab) || RefusedReplay(task)
  {
    var tasks' := tab.tasks[i := task];
    if j :| 0 <= j < |tab.tasks| && RefusedReplay(tab.tasks[j]) {
      assert tasks'[j] == tab.tasks[j];
    }
    if RefusedReplay(task) {
      assert RefusedReplay(tasks'[i]);
    }
  }

  /** What a step of task `i` leaves of the client, when every finished refresh succeeded. */
  ghost predicate ClientMoved(tab: Tab, tab': Tab, i: nat) {
    && i < |tab.tasks| == |tab'.tasks|
    && tab'.tasks == tab.tasks[i := tab'.tasks[i]] && !RefusedReplay(tab.tasks[i])
    && tab'.settled == tab.settled && tab'.issued == tab.issued
    && (tab'.tasks[i].retried ==> tab.tasks[i].retried || tab.session.Some?)
    && if RefusedReplay(tab'.tasks[i]) then
         tab.tasks[i].retried && tab'.session == None && tab'.purged == (tab.purged || tab.session.Some?)
       else tab'.session == tab.session && tab'.purged == tab.purged
  }

  lemma ResponseMovesClient(tab: Tab, i: nat, failure: Option<nat>)
    requires i < |tab.tasks| && tab.tasks[i].phase.Sent?
    ensures ClientMoved(tab, OnResponse(tab, i, failure), i)
  {
  }

  lemma BeginMovesClient(tab: Tab, i: nat)
    requires i < |tab.tasks| && tab.tasks[i].phase.Unsent?
    ensures ClientMoved(tab, Begin(tab, i), i)
  {
  }

  lemma ResumptionMovesClient(tab: Tab, i: nat)
    requires i < |tab.tasks| && tab.tasks[i].phase.Awaiting?
    ensures ClientMoved(tab, AfterRefresh(tab, i, true), i)
  {
  }

  lemma TaskStepMovesClient(w: World, event: Event)
    requires TaskStep(w, event) != w
    requires forall call :: call in w.tab.settled ==> w.tab.settled[call]
    ensures (event.Begins? || event.Responds? || event.Resumes?) && ClientMoved(w.tab, TaskStep(w, event).tab, event.i)
  {
    match event
    case Begins(i) => BeginMovesClient(w.tab, i);
    case Responds(i, failure) => ResponseMovesClient(w.tab, i, failure);
    case Resumes(i) => ResumptionMovesClient(w.tab, i);
    case _ =>
  }

  lemma TaskStepKeepsClient(w: World, event: Event, signedIn: bool)
    requires SingleFlight(w) && ClientKept(w.tab, signedIn)
    ensures ClientKept(TaskStep(w, event).tab, signedIn)
  {
    var w' := TaskStep(w, event);
    if w' != w {
      TaskStepMovesClient(w, event);
      RefusalsStay(w.tab, event.i, w'.tab.tasks[event.i]);
      assert HasRefusedReplay(w'.tab) <==> HasRefusedReplay(w.tab.(tasks := w'.tab.tasks));
    }
  }

  lemma TaskStepKeepsCookie(w: World, event: Event)
    requires SingleFlight(w) && CookieHeld(w)
    ensures CookieHeld(TaskStep(w, event)) && TaskStep(w, event).server == w.server
  {
  }

  // ----- The server's side -----

  /** What happens elsewhere leaves a token of the context in place. */
  lemma ElsewhereKeepsHeld(w: World, change: StoreEvent, jti: Jti)
    requires Owned(w.server) && Held(w, jti)
    requires change.RevokeEvent? ==> change.jti != jti
    requires change.DeleteKeysEvent? && change.k < |w.server.sweeps| ==> jti !in w.server.sweeps[change.k].members
    ensures Held(Store(w, change), jti)
  {
  }

  lemma ElsewhereKeepsCookie(w: World, change: StoreEvent)
    requires Owned(w.server) && CookieHeld(w) && Calm(w, Elsewhere(change))
    ensures CookieHeld(Store(w, change))
  {
    if Held(w, w.cookie.value) {
      ElsewhereKeepsHeld(w, change, w.cookie.value);
    }
    match Pending(w)
    case Some(Replied(Granted(jti))) => ElsewhereKeepsHeld(w, change, jti);
    case _ =>
  }

  /** Each step of a rotation hands the context's one live token on to the next. */
  lemma CallStepKeepsCookie(w: World, event: Event)
    requires SingleFlight(w) && CookieHeld(w) && Unexpired(w) && Calm(w, event)
    ensures CookieHeld(CallStep(w, event))
  {
    match event
    case Settles(id) => if id in w.calls && w.calls[id].Arrived? { SettleKeepsFlight(w, id, w.calls[id].answer); }
    case _ =>
  }

  lemma CallStepKeepsOwned(w: World, event: Event)
    requires Owned(w.server)
    ensures Owned(CallStep(w, event).server)
  {
    var ttl := Sessions.REFRESH_TTL_SECONDS;
    match event
    case Revokes(id, _) => if id in w.calls && w.calls[id].Checked? { StoreStepKeepsOwned(ttl, w.server, RevokeEvent(w.calls[id].jti)); }
    case Issues(_, newJti, _, _) => StoreStepKeepsOwned(ttl, w.server, SaveEvent(newJti, w.user));
    case _ =>
  }

  lemma CallStepKeepsClient(w: World, event: Event, signedIn: bool)
    requires SingleFlight(w) && CookieHeld(w) && ClientKept(w.tab, signedIn)
    ensures ClientKept(CallStep(w, event).tab, signedIn)
  {
    var w' := CallStep(w, event);
    if w'.tab != w.tab {
      assert event.Settles? && w.calls[event.call].answer.Granted?;
      assert w'.tab.tasks == w.tab.tasks;
      assert HasRefusedReplay(w'.tab) <==> HasRefusedReplay(w.tab);
    }
  }

  lemma StepKeepsCoherent(w: World, event: Event, signedIn: bool)
    requires Coherent(w, signedIn) && Unexpired(w) && Calm(w, event)
    ensures Coherent(Step(w, event), signedIn)
  {
    if event.Elsewhere? {
      ElsewhereKeepsCookie(w, event.change);
      StoreStepKeepsOwned(Sessions.REFRESH_TTL_SECONDS, w.server, event.change);
    } else if event.Begins? || event.Responds? || event.Resumes? {
      TaskStepKeepsFlight(w, event);
      TaskStepKeepsClient(w, event, signedIn);
      TaskStepKeepsCookie(w, event);
    } else {
      CallStepKeepsFlight(w, event);
      CallStepKeepsCookie(w, event);
      CallStepKeepsOwned(w, event);
      CallStepKeepsClient(w, event, signedIn);
    }
  }

  lemma {:induction false} CalmRunsStayCoherent(page: Page, events: seq<Event>)
    requires SignedIn(page) && CalmRun(page, events)
    ensures Coherent(Run(page, events), page.signedIn)
  {
    if events != [] {
      CalmRunsStayCoherent(page, events[..|events| - 1]);
      StepKeepsCoherent(Run(page, events[..|events| - 1]), events[|events| - 1], page.signedIn);
    }
  }

  /** In every calm run, however concurrent requests, answers and the three steps of each rotation
      interleave: the cookie's token is live whenever no refresh is outstanding, every shared refresh has
      succeeded, and the session in memory was lost if and only if some replay was refused. */
  lemma CookieStaysLive(page: Page, events: seq<Event>)
    requires SignedIn(page) && CalmRun(page, events)
    ensures var w := Run(page, events);
      && (w.tab.promise.None? ==> w.cookie.Some? && IsValid(w.server.tokens, w.cookie.value, w.user, w.server.now))
      && (forall call :: call in w.tab.settled ==> w.tab.settled[call])
      && (w.tab.purged <==> HasRefusedReplay(w.tab))
      && ((page.signedIn || w.tab.settled != map[]) && !HasRefusedReplay(w.tab) ==> w.tab.session.Some?)
  {
    CalmRunsStayCoherent(page, events);
    var tab := Run(page, events).tab;
    if tab.settled != map[] {
      var call :| call in tab.settled;
      assert 1 <= call <= tab.issued;
    }
  }

  // ----- The same handler, whole or in steps -----

  /** With nothing in between, the three steps are the rotation of Sessions. */
  lemma HandlerIsItsSteps(w: World, id: nat, jti: Jti, newJti: Jti, userExists: bool, replies: Sessions.RefreshReplies)
    requires id in w.calls && w.calls[id] == Posted(Some(jti)) && newJti !in w.server.used
    ensures var checked := CallStep(w, Checks(id, replies.check));
      var revoked := CallStep(checked, Revokes(id, replies.revoke));
      var w' := CallStep(revoked, Issues(id, newJti, userExists, replies.save));
      var (tokens, result) := Sessions.Refresh(w.server.tokens, Some((jti, w.user)), userExists, newJti, w.server.now, replies);
      && w'.server.tokens == tokens
      && id in w'.calls && w'.calls[id].Replied?
      && (w'.calls[id].answer == Granted(newJti) <==> result == Sessions.Issued(newJti))
      && (w'.calls[id].answer == Denied(UNAUTHORIZED) <==> result == Sessions.Failed(Sessions.Unauthorized))
  {
  }

  // ----- What the assumptions are for -----

  /** One request, a session in memory and a live cookie. */
  function ExamplePage(user: Uuid): Page {
    Page([Request], true, Some(1), StoreState(Save(NO_TOKENS, 1, user, Sessions.REFRESH_TTL_SECONDS, 0), 0, {1}, []), user)
  }

  const MEETS_A_401: seq<Event> := [Begins(0), Responds(0, Some(UNAUTHORIZED))]

  lemma OpeningRun(user: Uuid)
    ensures var (page, w) := (ExamplePage(user), Run(ExamplePage(user), MEETS_A_401));
      w == World(Tab([Task(Request, Awaiting(1), true, [Some(0)])], Some(1), map[], 1, Some(0), 0, false),
                 map[1 := Posted(Some(1))], Some(1), page.server, user)
  {
    var page := ExamplePage(user);
    assert MEETS_A_401 == [] + [Begins(0)] + [Responds(0, Some(UNAUTHORIZED))];
    FoldAppend(Step, Opened(page), [], Begins(0));
    FoldAppend(Step, Opened(page), [] + [Begins(0)], Responds(0, Some(UNAUTHORIZED)));
    var w0 := Run(page, []);
    assert w0.tab.tasks == [Task(Request, Unsent, false, [])];
    var w1 := Step(w0, Begins(0));
    assert w1.tab == SendTask(w0.tab, 0);
    assert w0.tab.tasks[0].bearers + [Bearer(w0.tab, w0.tab.tasks[0])] == [Some(0)];
    assert w1.tab.tasks == [Task(Request, Sent, false, [Some(0)])];
    var w2 := Step(w1, Responds(0, Some(UNAUTHORIZED)));
    assert w2.tab.tasks == [Task(Request, Awaiting(1), true, [Some(0)])];
  }

  lemma RunOfSix(page: Page, start: seq<Event>, e1: Event, e2: Event, e3: Event, e4: Event, e5: Event, e6: Event)
    ensures Run(page, start + [e1, e2, e3, e4, e5, e6])
         == Step(Step(Step(Step(Step(Step(Run(page, start), e1), e2), e3), e4), e5), e6)
  {
    assert start + [e1, e2, e3, e4, e5, e6] == start + [e1] + [e2] + [e3] + [e4] + [e5] + [e6];
    FoldAppend(Step, Opened(page), start, e1);
    FoldAppend(Step, Opened(page), start + [e1], e2);
    FoldAppend(Step, Opened(page), start + [e1] + [e2], e3);
    FoldAppend(Step, Opened(page), start + [e1] + [e2] + [e3], e4);
    FoldAppend(Step, Opened(page), start + [e1] + [e2] + [e3] + [e4], e5);
    FoldAppend(Step, Opened(page), start + [e1] + [e2] + [e3] + [e4] + [e5], e6);
  }

  const ROTATES: seq<Event> :=
    [Checks(1, Answered), Revokes(1, Answered), Issues(1, 2, true, Answered), Arrives(1), Settles(1), Resumes(0)]

  lemma RotatedRun(user: Uuid) returns (w: World)
    ensures w == Run(ExamplePage(user), MEETS_A_401 + ROTATES)
    ensures w.tab == Tab([Task(Request, Sent, true, [Some(0), Some(1)])], None, map[1 := true], 1, Some(1), 1, false)
    ensures w.cookie == Some(2) && IsValid(w.server.tokens, 2, user, w.server.now)
  {
    var page := ExamplePage(user);
    OpeningRun(user);
    var w0 := Run(page, MEETS_A_401);
    var (e1, e2, e3, e4, e5, e6) :=
      (Checks(1, Answered), Revokes(1, Answered), Issues(1, 2, true, Answered), Arrives(1), Settles(1), Resumes(0));
    var w1 := Step(w0, e1);
    assert w1 == Move(w0, 1, Checked(1));
    var w2 := Step(w1, e2);
    assert w2 == Move(Store(w1, RevokeEvent(1)), 1, Revoked(1));
    var w3 := Step(w2, e3);
    assert w3 == Move(Store(w2, SaveEvent(2, user)), 1, Replied(Granted(2)));
    var w4 := Step(w3, e4);
    assert w4 == Move(w3, 1, Arrived(Granted(2))).(cookie := Some(2));
    var w5 := Step(w4, e5);
    assert w5.tab == SetSession(w0.tab, 1).(promise := None, settled := map[1 := true]);
    w := Step(w5, e6);
    assert w5.tab.tasks[0].bearers + [Bearer(w5.tab, w5.tab.tasks[0])] == [Some(0), Some(1)];
    assert w.tab.tasks == [Task(Request, Sent, true, [Some(0), Some(1)])];
    RunOfSix(page, MEETS_A_401, e1, e2, e3, e4, e5, e6);
  }

  /** The refresh succeeded and the cookie is live, yet a replay that meets any error at all purges the
      session: the catch clause around the replay takes every rejection for a dead refresh token. */
  lemma RefusedReplayPurges(user: Uuid)
    ensures var (page, events) := (ExamplePage(user), MEETS_A_401 + ROTATES + [Responds(0, Some(500))]);
      var w := Run(page, events);
      && w.tab.settled == map[1 := true] && w.tab.promise == None && w.cookie == Some(2)
      && IsValid(w.server.tokens, 2, user, w.server.now)
      && w.tab.session == None && w.tab.purged
  {
    var page := ExamplePage(user);
    OpeningRun(user);
    var w := Run(page, MEETS_A_401);
    var w' := RotatedRun(user);
    FoldAppend(Step, Opened(page), MEETS_A_401 + ROTATES, Responds(0, Some(500)));
    assert w'.tab.tasks[0].phase == Sent;
  }

  /** Another holder of the same cookie, such as a second tab, that has its token revoked first: with every
      command answered, the shared refresh is denied and the session purged. */
  lemma RevokedElsewherePurges(user: Uuid)
    ensures var w := Run(ExamplePage(user), MEETS_A_401 + [Elsewhere(RevokeEvent(1)), Checks(1, Answered), Arrives(1), Settles(1), Resumes(0)]);
      w.tab.settled == map[1 := false] && w.tab.session == None && w.tab.purged
  {
    var page := ExamplePage(user);
    OpeningRun(user);
    var w0 := Run(page, MEETS_A_401);
    var (e1, e2, e3, e4, e5) := (Elsewhere(RevokeEvent(1)), Checks(1, Answered), Arrives(1), Settles(1), Resumes(0));
    var w1 := Step(w0, e1);
    assert w1 == Store(w0, RevokeEvent(1));
    var w2 := Step(w1, e2);
    assert w2 == Move(w1, 1, Replied(Denied(UNAUTHORIZED)));
    var w3 := Step(w2, e3);
    assert w3 == Move(w1, 1, Arrived(Denied(UNAUTHORIZED)));
    var w4 := Step(w3, e4);
    assert w4.tab == w0.tab.(promise := None, settled := map[1 := false]);
    var w5 := Step(w4, e5);
    assert w5.tab == GiveUp(w4.tab, 0);
    var start := MEETS_A_401;
    assert start + [e1, e2, e3, e4, e5] == start + [e1] + [e2] + [e3] + [e4] + [e5];
    FoldAppend(Step, Opened(page), start, e1);
    FoldAppend(Step, Opened(page), start + [e1], e2);
    FoldAppend(Step, Opened(page), start + [e1] + [e2], e3);
    FoldAppend(Step, Opened(page), start + [e1] + [e2] + [e3], e4);
    FoldAppend(Step, Opened(page), start + [e1] + [e2] + [e3] + [e4], e5);
  }
}
