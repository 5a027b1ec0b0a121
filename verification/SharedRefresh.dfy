/** One browsing context (frontend-web/src/api/auth-interceptors.ts, session-store.ts) against the server's
    rotation (backend-core/src/auth/auth.service.ts, auth.controller.ts): concurrent requests that meet a
    401, the one shared refresh, the replays, and a server handler whose check, revocation and save are
    separate steps. */
module SharedRefresh {
  import opened Basics
  import opened TokenRegistry
  import Sessions

  const UNAUTHORIZED: nat := 401

  // ----- The client -----

  /** A `Restore` is a mount of AuthProvider, which awaits the shared refresh and sends nothing itself. */
  datatype Kind = Request | Restore

  datatype Phase = Unsent | Sent | Awaiting(promise: nat) | Fulfilled | Rejected

  /** `bearers` holds the access token carried by each sending of a request. */
  datatype Task = Task(kind: Kind, phase: Phase, retried: bool, bearers: seq<Option<nat>>)

  /** Refresh calls are numbered from 1 in the order they start, and an access token by the call that
      returned it, 0 being the login. `settled` says of each finished call whether it succeeded. `issued`
      is the newest access token received, and `purged` whether a session was ever lost. */
  datatype Tab = Tab(
    tasks: seq<Task>,
    promise: Option<nat>,
    settled: map<nat, bool>,
    started: nat,
    session: Option<nat>,
    issued: nat,
    purged: bool)

  function SetSession(tab: Tab, token: nat): Tab {
    tab.(session := Some(token), issued := token)
  }

  function Clear(tab: Tab): Tab {
    tab.(session := None, purged := tab.purged || tab.session.Some?)
  }

  function RefreshOnce(tab: Tab): (Tab, nat) {
    if tab.promise.Some? then (tab, tab.promise.value)
    else (tab.(promise := Some(tab.started + 1), started := tab.started + 1), tab.started + 1)
  }

  function SetTask(tab: Tab, i: nat, task: Task): Tab
    requires i < |tab.tasks|
  {
    tab.(tasks := tab.tasks[i := task])
  }

  /** The header a sending carries: the request interceptor overwrites it when there is a session, and leaves
      a replayed one as it was when there is none. */
  function Bearer(tab: Tab, task: Task): Option<nat> {
    if tab.session.Some? || task.bearers == [] then tab.session else task.bearers[|task.bearers| - 1]
  }

  function SendTask(tab: Tab, i: nat): Tab
    requires i < |tab.tasks|
  {
    var task := tab.tasks[i];
    SetTask(tab, i, task.(phase := Sent, bearers := task.bearers + [Bearer(tab, task)]))
  }

  function AwaitRefresh(tab: Tab, i: nat): Tab
    requires i < |tab.tasks|
  {
    var (tab', promise) := RefreshOnce(tab);
    SetTask(tab', i, tab.tasks[i].(phase := Awaiting(promise)))
  }

  function Begin(tab: Tab, i: nat): Tab
    requires i < |tab.tasks|
  {
    if tab.tasks[i].kind.Restore? then AwaitRefresh(tab, i) else SendTask(tab, i)
  }

  /** The test of the response interceptor. */
  predicate Refreshes(status: nat, retried: bool, isRefreshCall: bool, hasSession: bool) {
    status == UNAUTHORIZED && !retried && !isRefreshCall && hasSession
  }

  /** The catch clause, and that of AuthProvider. */
  function GiveUp(tab: Tab, i: nat): Tab
    requires i < |tab.tasks|
  {
    Clear(SetTask(tab, i, tab.tasks[i].(phase := Rejected)))
  }

  /** A response to the outstanding sending of a request; no status is an answer of the 2xx family. */
  function OnResponse(tab: Tab, i: nat, failure: Option<nat>): Tab
    requires i < |tab.tasks|
  {
    var task := tab.tasks[i];
    if failure.None? then SetTask(tab, i, task.(phase := Fulfilled))
    else if Refreshes(failure.value, task.retried, false, tab.session.Some?) then
      AwaitRefresh(SetTask(tab, i, task.(retried := true)), i)
    else if task.retried then GiveUp(tab, i)
    else SetTask(tab, i, task.(phase := Rejected))
  }

  /** What follows `await refreshOnce()`. */
  function AfterRefresh(tab: Tab, i: nat, succeeded: bool): Tab
    requires i < |tab.tasks|
  {
    var task := tab.tasks[i];
    if !succeeded then GiveUp(tab, i)
    else if task.kind.Restore? then SetTask(tab, i, task.(phase := Fulfilled))
    else SendTask(tab, i)
  }

  /** The refresh response passes the same interceptor; then `then` and `finally` run before any other
      response is looked at. */
  function OnRefreshResponse(tab: Tab, call: nat, failure: Option<nat>): Tab {
    if failure.None? then
      SetSession(tab, call).(promise := None, settled := tab.settled[call := true])
    else if Refreshes(failure.value, false, true, tab.session.Some?) then RefreshOnce(tab).0
    else tab.(promise := None, settled := tab.settled[call := false])
  }

  // ----- In place -----

  class SessionStore {
    var accessToken: Option<nat>

    constructor ()
      ensures accessToken == None
    {
      accessToken := None;
    }

    method SetSession(token: nat)
      modifies this
      ensures accessToken == Some(token)
    {
      accessToken := Some(token);
    }

    method Clear()
      modifies this
      ensures accessToken == None
    {
      accessToken := None;
    }
  }

  function Tasks(kinds: seq<Kind>): seq<Task> {
    seq(|kinds|, i requires 0 <= i < |kinds| => Task(kinds[i], Unsent, false, []))
  }

  function Opening(kinds: seq<Kind>, signedIn: bool): Tab {
    Tab(Tasks(kinds), None, map[], 0, if signedIn then Some(0) else None, 0, false)
  }

  class AuthInterceptors {
    const sessionStore: SessionStore
    var refreshPromise: Option<nat>
    var tasks: seq<Task>
    var settled: map<nat, bool>
    var started: nat
    ghost var issued: nat
    ghost var purged: bool

    constructor (sessionStore: SessionStore, kinds: seq<Kind>)
      ensures this.sessionStore == sessionStore
      ensures View() == Opening(kinds, sessionStore.accessToken.Some?).(session := sessionStore.accessToken)
    {
      this.sessionStore := sessionStore;
      refreshPromise, settled, started, issued, purged := None, map[], 0, 0, false;
      tasks := Tasks(kinds);
    }

    ghost function View(): Tab
      reads this, sessionStore
    {
      Tab(tasks, refreshPromise, settled, started, sessionStore.accessToken, issued, purged)
    }

    method SharedPromise() returns (promise: nat)
      modifies this`refreshPromise, this`started
      ensures (View(), promise) == RefreshOnce(old(View()))
    {
      if refreshPromise.None? {
        started := started + 1;
        refreshPromise := Some(started);
      }
      promise := refreshPromise.value;
    }

    method Send(i: nat)
      requires i < |tasks|
      modifies this`tasks
      ensures View() == SendTask(old(View()), i)
    {
      var bearers := tasks[i].bearers;
      var bearer := sessionStore.accessToken;
      if bearer.None? && bearers != [] {
        bearer := bearers[|bearers| - 1];
      }
      tasks := tasks[i := tasks[i].(phase := Sent, bearers := bearers + [bearer])];
    }

    method Start(i: nat)
      requires i < |tasks|
      modifies this
      ensures View() == Begin(old(View()), i)
    {
      if tasks[i].kind.Restore? {
        var promise := SharedPromise();
        tasks := tasks[i := tasks[i].(phase := Awaiting(promise))];
      } else {
        Send(i);
      }
    }

    method Abandon(i: nat)
      requires i < |tasks|
      modifies this, sessionStore
      ensures View() == GiveUp(old(View()), i)
    {
      tasks := tasks[i := tasks[i].(phase := Rejected)];
      purged := purged || sessionStore.accessToken.Some?;
      sessionStore.Clear();
    }

    method HandleResponse(i: nat, failure: Option<nat>)
      requires i < |tasks|
      modifies this, sessionStore
      ensures View() == OnResponse(old(View()), i, failure)
    {
      if failure.None? {
        tasks := tasks[i := tasks[i].(phase := Fulfilled)];
      } else if failure.value != UNAUTHORIZED || tasks[i].retried || sessionStore.accessToken.None? {
        if tasks[i].retried {
          Abandon(i);
        } else {
          tasks := tasks[i := tasks[i].(phase := Rejected)];
        }
      } else {
        tasks := tasks[i := tasks[i].(retried := true)];
        var promise := SharedPromise();
        tasks := tasks[i := tasks[i].(phase := Awaiting(promise))];
      }
    }

    method Resume(i: nat, succeeded: bool)
      requires i < |tasks|
      modifies this, sessionStore
      ensures View() == AfterRefresh(old(View()), i, succeeded)
    {
      if !succeeded {
        Abandon(i);
      } else if tasks[i].kind.Restore? {
        tasks := tasks[i := tasks[i].(phase := Fulfilled)];
      } else {
        Send(i);
      }
    }

    method HandleRefreshResponse(call: nat, failure: Option<nat>)
      modifies this, sessionStore
      ensures View() == OnRefreshResponse(old(View()), call, failure)
    {
      if failure.None? {
        sessionStore.SetSession(call);
        issued := call;
      }
      refreshPromise := None;
      settled := settled[call := failure.None?];
    }
  }

  // ----- Client, network and server -----

  datatype Answer = Granted(jti: Jti) | Denied(status: nat)

  /** Where a refresh call is: on its way with the cookie it carries, past each step of the handler,
      answered, or back in the browser with its Set-Cookie applied. */
  datatype Call =
    | Posted(cookie: Option<Jti>)
    | Checked(jti: Jti)
    | Revoked(jti: Jti)
    | Replied(answer: Answer)
    | Arrived(answer: Answer)

  /** Every token of the cookie is signed for `user`. */
  datatype World = World(tab: Tab, calls: map<nat, Call>, cookie: Option<Jti>, server: StoreState, user: Uuid)

  /** `Elsewhere` is whatever else happens to the registry, and the passing of time. A failure is a status,
      or 0 when the network brings none. */
  datatype Event =
    | Elsewhere(change: StoreEvent)
    | Begins(i: nat)
    | Responds(i: nat, failure: Option<nat>)
    | Resumes(i: nat)
    | Checks(call: nat, reply: Reply)
    | Revokes(call: nat, reply: Reply)
    | Issues(call: nat, newJti: Jti, userExists: bool, reply: Reply)
    | Loses(call: nat)
    | Arrives(call: nat)
    | Settles(call: nat)

  /** The tab after a step of its own, with the call it may have posted. */
  function WithTab(w: World, tab: Tab): World {
    w.(tab := tab, calls := if tab.started > w.tab.started then w.calls[tab.started := Posted(w.cookie)] else w.calls)
  }

  function Store(w: World, change: StoreEvent): World {
    w.(server := StoreStep(Sessions.REFRESH_TTL_SECONDS, w.server, change))
  }

  function Move(w: World, id: nat, call: Call): World {
    w.(calls := w.calls[id := call])
  }

  predicate InPhase(w: World, i: nat, phase: Phase) {
    i < |w.tab.tasks| && w.tab.tasks[i].phase == phase
  }

  /** The cookie is read from the request; the signed token in it expires with its key. */
  function CheckCall(w: World, id: nat, presented: Option<Jti>, reply: Reply): World {
    if presented.None? || reply.Raised() || !IsValid(w.server.tokens, presented.value, w.user, w.server.now) then
      Move(w, id, Replied(Denied(UNAUTHORIZED)))
    else Move(w, id, Checked(presented.value))
  }

  function RevokeCall(w: World, id: nat, jti: Jti, reply: Reply): World {
    var w' := if reply.Ran() then Store(w, RevokeEvent(jti)) else w;
    Move(w', id, if reply.Raised() then Replied(Denied(503)) else Revoked(jti))
  }

  function IssueCall(w: World, id: nat, newJti: Jti, userExists: bool, reply: Reply): World {
    if !userExists then Move(w, id, Replied(Denied(UNAUTHORIZED)))
    else
      var w' := if reply.Ran() then Store(w, SaveEvent(newJti, w.user)) else w;
      Move(w', id, Replied(if reply.Raised() then Denied(503) else Granted(newJti)))
  }

  function ArriveCall(w: World, id: nat, answer: Answer): World {
    Move(w, id, Arrived(answer)).(cookie := if answer.Granted? then Some(answer.jti) else w.cookie)
  }

  function SettleCall(w: World, id: nat, answer: Answer): World {
    WithTab(w.(calls := w.calls - {id}),
            OnRefreshResponse(w.tab, id, if answer.Granted? then None else Some(answer.status)))
  }

  function CallStep(w: World, event: Event): World {
    match event
    case Checks(id, reply) => if id in w.calls && w.calls[id].Posted? then CheckCall(w, id, w.calls[id].cookie, reply) else w
    case Revokes(id, reply) => if id in w.calls && w.calls[id].Checked? then RevokeCall(w, id, w.calls[id].jti, reply) else w
    case Issues(id, newJti, userExists, reply) =>
      if id in w.calls && w.calls[id].Revoked? && newJti !in w.server.used then IssueCall(w, id, newJti, userExists, reply) else w
    case Loses(id) =>
      if id in w.calls && (w.calls[id].Posted? || w.calls[id].Replied?) then Move(w, id, Arrived(Denied(0))) else w
    case Arrives(id) => if id in w.calls && w.calls[id].Replied? then ArriveCall(w, id, w.calls[id].answer) else w
    case Settles(id) => if id in w.calls && w.calls[id].Arrived? then SettleCall(w, id, w.calls[id].answer) else w
    case _ => w
  }

  function TaskStep(w: World, event: Event): World {
    match event
    case Begins(i) => if InPhase(w, i, Unsent) then WithTab(w, Begin(w.tab, i)) else w
    case Responds(i, failure) => if InPhase(w, i, Sent) then WithTab(w, OnResponse(w.tab, i, failure)) else w
    case Resumes(i) =>
      if i < |w.tab.tasks| && w.tab.tasks[i].phase.Awaiting? && w.tab.tasks[i].phase.promise in w.tab.settled then
        WithTab(w, AfterRefresh(w.tab, i, w.tab.settled[w.tab.tasks[i].phase.promise]))
      else w
    case _ => w
  }

  function Step(w: World, event: Event): World {
    if event.Elsewhere? then Store(w, event.change)
    else if event.Begins? || event.Responds? || event.Resumes? then TaskStep(w, event)
    else CallStep(w, event)
  }

  /** From a fresh page, with or without a session in memory or a cookie. */
  datatype Page = Page(kinds: seq<Kind>, signedIn: bool, cookie: Option<Jti>, server: StoreState, user: Uuid)

  function Opened(page: Page): World {
    World(Opening(page.kinds, page.signedIn), map[], page.cookie, page.server, page.user)
  }

  function Run(page: Page, events: seq<Event>): World {
    Fold(Step, Opened(page), events)
  }

  // ----- Single flight -----

  ghost predicate Known(tab: Tab, bearer: Option<nat>) {
    bearer.Some? ==> bearer.value <= tab.issued
  }

  ghost predicate Older(bearer: Option<nat>, token: nat) {
    bearer.Some? ==> bearer.value < token
  }

  ghost predicate RequestSound(task: Task) {
    && (task.phase.Unsent? ==> task.bearers == [] && !task.retried)
    && (task.phase.Sent? ==> |task.bearers| == if task.retried then 2 else 1)
    && (task.phase.Awaiting? ==> task.retried && |task.bearers| == 1 && Older(task.bearers[0], task.phase.promise))
    && |task.bearers| <= (if task.retried then 2 else 1)
  }

  /** The replay carried a newer access token than the one refused. */
  ghost predicate Renewed(task: Task)
    requires |task.bearers| == 2
  {
    task.bearers[1].Some? && Older(task.bearers[0], task.bearers[1].value)
  }

  ghost predicate TaskSound(tab: Tab, task: Task) {
    && (forall bearer :: bearer in task.bearers ==> Known(tab, bearer))
    && (task.kind.Restore? ==> task.bearers == [] && !task.retried && !task.phase.Sent?)
    && (task.phase.Awaiting? ==> 1 <= task.phase.promise <= tab.started)
    && (task.kind.Request? ==> RequestSound(task))
    && (|task.bearers| == 2 ==> Renewed(task) || (tab.purged && task.bearers[1] == task.bearers[0]))
  }

  ghost predicate TabSound(tab: Tab) {
    && (tab.promise.Some? ==> tab.promise.value == tab.started && tab.issued < tab.started)
    && (forall call :: call in tab.settled <==> 1 <= call <= tab.started && tab.promise != Some(call))
    && (forall call :: call in tab.settled && tab.settled[call] ==> call <= tab.issued)
    && tab.issued <= tab.started
    && (tab.session.Some? ==> tab.session.value == tab.issued)
    && (tab.session.None? && tab.issued > 0 ==> tab.purged)
  }

  ghost predicate Sound(tab: Tab) {
    TabSound(tab) && forall i :: 0 <= i < |tab.tasks| ==> TaskSound(tab, tab.tasks[i])
  }

  ghost predicate SingleFlight(w: World) {
    && w.calls.Keys == (if w.tab.promise.Some? then {w.tab.promise.value} else {})
    && Sound(w.tab)
  }

  lemma SetTaskKeepsSound(tab: Tab, i: nat, task: Task)
    requires Sound(tab) && i < |tab.tasks| && TaskSound(tab, task)
    ensures Sound(SetTask(tab, i, task))
  {
    var tab' := SetTask(tab, i, task);
    forall j | 0 <= j < |tab'.tasks| ensures TaskSound(tab', tab'.tasks[j]) {
      assert TaskSound(tab, tab'.tasks[j]);
    }
  }

  lemma RefreshOnceKeepsSound(tab: Tab)
    requires Sound(tab)
    ensures Sound(RefreshOnce(tab).0) && tab.issued < RefreshOnce(tab).1 == RefreshOnce(tab).0.started
  {
    var tab' := RefreshOnce(tab).0;
    forall j | 0 <= j < |tab'.tasks| ensures TaskSound(tab', tab'.tasks[j]) {
      assert TaskSound(tab, tab'.tasks[j]);
    }
  }

  lemma ClearKeepsSound(tab: Tab)
    requires Sound(tab)
    ensures Sound(Clear(tab))
  {
    var tab' := Clear(tab);
    forall j | 0 <= j < |tab'.tasks| ensures TaskSound(tab', tab'.tasks[j]) {
      assert TaskSound(tab, tab'.tasks[j]);
    }
  }

  lemma GiveUpKeepsSound(tab: Tab, i: nat)
    requires Sound(tab) && i < |tab.tasks| && !tab.tasks[i].phase.Unsent?
    ensures Sound(GiveUp(tab, i))
  {
    assert TaskSound(tab, tab.tasks[i]);
    SetTaskKeepsSound(tab, i, tab.tasks[i].(phase := Rejected));
    ClearKeepsSound(SetTask(tab, i, tab.tasks[i].(phase := Rejected)));
  }

  lemma SendKeepsSound(tab: Tab, i: nat)
    requires Sound(tab) && i < |tab.tasks| && tab.tasks[i].kind.Request?
    requires var phase := tab.tasks[i].phase;
      phase.Unsent? || (phase.Awaiting? && phase.promise in tab.settled && tab.settled[phase.promise])
    ensures Sound(SendTask(tab, i))
  {
    var task := tab.tasks[i];
    assert TaskSound(tab, task);
    SetTaskKeepsSound(tab, i, task.(phase := Sent, bearers := task.bearers + [Bearer(tab, task)]));
  }

  lemma AwaitKeepsSound(tab: Tab, i: nat, retried: bool)
    requires Sound(tab) && i < |tab.tasks|
    requires var task := tab.tasks[i];
      if retried then task.kind.Request? && task.phase.Sent? && !task.retried else task.kind.Restore?
    ensures Sound(AwaitRefresh(SetTask(tab, i, tab.tasks[i].(retried := retried)), i))
  {
    var task := tab.tasks[i];
    assert TaskSound(tab, task);
    RefreshOnceKeepsSound(tab);
    var (tab', promise) := RefreshOnce(tab);
    var task' := task.(retried := retried, phase := Awaiting(promise));
    assert task.bearers != [] ==> task.bearers[0] in task.bearers && Known(tab, task.bearers[0]);
    SetTaskKeepsSound(tab', i, task');
    assert tab.tasks[i := task.(retried := retried)][i := task'] == tab.tasks[i := task'];
  }

  lemma BeginKeepsSound(tab: Tab, i: nat)
    requires Sound(tab) && i < |tab.tasks| && tab.tasks[i].phase.Unsent?
    ensures Sound(Begin(tab, i))
  {
    var task := tab.tasks[i];
    assert TaskSound(tab, task);
    if task.kind.Restore? {
      assert SetTask(tab, i, task.(retried := false)) == tab;
      AwaitKeepsSound(tab, i, false);
    } else {
      SendKeepsSound(tab, i);
    }
  }

  lemma OnResponseKeepsSound(tab: Tab, i: nat, failure: Option<nat>)
    requires Sound(tab) && i < |tab.tasks| && tab.tasks[i].phase.Sent?
    ensures Sound(OnResponse(tab, i, failure))
  {
    var task := tab.tasks[i];
    assert TaskSound(tab, task);
    if failure.Some? && Refreshes(failure.value, task.retried, false, tab.session.Some?) {
      AwaitKeepsSound(tab, i, true);
    } else if failure.Some? && task.retried {
      GiveUpKeepsSound(tab, i);
    } else {
      SetTaskKeepsSound(tab, i, task.(phase := if failure.None? then Fulfilled else Rejected));
    }
  }

  lemma AfterRefreshKeepsSound(tab: Tab, i: nat)
    requires Sound(tab) && i < |tab.tasks| && tab.tasks[i].phase.Awaiting? && tab.tasks[i].phase.promise in tab.settled
    ensures Sound(AfterRefresh(tab, i, tab.settled[tab.tasks[i].phase.promise]))
  {
    var task := tab.tasks[i];
    assert TaskSound(tab, task);
    if !tab.settled[task.phase.promise] {
      GiveUpKeepsSound(tab, i);
    } else if task.kind.Restore? {
      SetTaskKeepsSound(tab, i, task.(phase := Fulfilled));
    } else {
      SendKeepsSound(tab, i);
    }
  }

  lemma PostsKeepFlight(w: World, tab: Tab)
    requires SingleFlight(w) && Sound(tab)
    requires if tab.started > w.tab.started then w.tab.promise.None? && tab.promise == Some(tab.started)
             else tab.promise == w.tab.promise
    ensures SingleFlight(WithTab(w, tab))
  {
  }

  /** A task's own step posts a refresh call only when none is outstanding. */
  lemma TaskStepKeepsFlight(w: World, event: Event)
    requires SingleFlight(w)
    ensures SingleFlight(TaskStep(w, event))
  {
    match event
    case Begins(i) =>
      if InPhase(w, i, Unsent) {
        BeginKeepsSound(w.tab, i);
        PostsKeepFlight(w, Begin(w.tab, i));
      }
    case Responds(i, failure) =>
      if InPhase(w, i, Sent) {
        OnResponseKeepsSound(w.tab, i, failure);
        PostsKeepFlight(w, OnResponse(w.tab, i, failure));
      }
    case Resumes(i) =>
      if i < |w.tab.tasks| && w.tab.tasks[i].phase.Awaiting? && w.tab.tasks[i].phase.promise in w.tab.settled {
        AfterRefreshKeepsSound(w.tab, i);
        PostsKeepFlight(w, AfterRefresh(w.tab, i, w.tab.settled[w.tab.tasks[i].phase.promise]));
      }
    case _ =>
  }

  lemma SettleKeepsFlight(w: World, id: nat, answer: Answer)
    requires SingleFlight(w) && id in w.calls
    ensures SingleFlight(SettleCall(w, id, answer))
    ensures SettleCall(w, id, answer).calls == map[] && SettleCall(w, id, answer).tab.started == w.tab.started
  {
    var tab' := OnRefreshResponse(w.tab, id, if answer.Granted? then None else Some(answer.status));
    forall j | 0 <= j < |tab'.tasks| ensures TaskSound(tab', tab'.tasks[j]) {
      assert TaskSound(w.tab, tab'.tasks[j]);
    }
  }

  lemma CallStepKeepsFlight(w: World, event: Event)
    requires SingleFlight(w)
    ensures SingleFlight(CallStep(w, event))
  {
    match event
    case Settles(id) => if id in w.calls && w.calls[id].Arrived? { SettleKeepsFlight(w, id, w.calls[id].answer); }
    case _ =>
  }

  lemma {:induction false} RunKeepsFlight(page: Page, events: seq<Event>)
    ensures SingleFlight(Run(page, events))
  {
    if events != [] {
      var before := Run(page, events[..|events| - 1]);
      RunKeepsFlight(page, events[..|events| - 1]);
      TaskStepKeepsFlight(before, events[|events| - 1]);
      CallStepKeepsFlight(before, events[|events| - 1]);
    }
  }

  /** In every interleaving, whatever the server and the network do: at most one refresh call is
      outstanding, and it is the shared one; each request is sent at most twice; and a replay carries an
      access token newer than the refused one, or the refused one again if the session was purged meanwhile. */
  lemma OneRefreshAtATime(page: Page, events: seq<Event>, i: nat)
    requires i < |Run(page, events).tab.tasks|
    ensures var w := Run(page, events);
      && |w.calls| <= 1
      && (forall call :: call in w.calls <==> w.tab.promise == Some(call))
      && var bearers := w.tab.tasks[i].bearers;
      && |bearers| <= 2
      && (|bearers| == 2 ==>
            || (bearers[1].Some? && (bearers[0].Some? ==> bearers[0].value < bearers[1].value))
            || (w.tab.purged && bearers[1] == bearers[0]))
  {
    RunKeepsFlight(page, events);
    var w := Run(page, events);
    assert TaskSound(w.tab, w.tab.tasks[i]);
    assert |w.calls| == |w.calls.Keys|;
  }
}
