/** The /match cache against live data: reviews, the event bus, and any number of requests whose every
    Redis or database access is a step of its own (matching-service/app/routers/matching.py,
    matching-service/app/services/match_cache.py, backend-core/src/gear/gear.service.ts). */
module CacheCoherence {
  import opened Basics
  import opened Entities
  import opened Scoring
  import opened Ranking
  import opened EventBus
  import opened CacheKey

  /** What stays fixed in a run: how a request is ranked on a database, its digest, the TTL. */
  datatype Service = Service(
    rank: (Database, MatchRequest) -> seq<MatchResult>,
    digest: MatchRequest -> string,
    ttl: nat)

  /** No two of these requests share a digest. */
  ghost predicate Apart(digest: MatchRequest -> string, requests: set<MatchRequest>) {
    forall r, s :: r in requests && s in requests && digest(r) == digest(s) ==> r == s
  }

  /** Any requests can be kept apart: there is a digest for every run. */
  lemma {:induction false} ApartDigestExists(requests: set<MatchRequest>) returns (digest: MatchRequest -> string, longest: nat)
    ensures Apart(digest, requests) && forall r :: r in requests ==> |digest(r)| <= longest
  {
    if requests == {} {
      digest, longest := (r: MatchRequest) => "", 0;
    } else {
      var one :| one in requests;
      var shorter, most := ApartDigestExists(requests - {one});
      var longer := seq(most + 1, i => 'a');
      digest, longest := (r: MatchRequest) => if r == one then longer else shorter(r), most + 1;
      forall r, s | r in requests && s in requests && digest(r) == digest(s) ensures r == s {
        assert r != one ==> r in requests - {one};
        assert s != one ==> s in requests - {one};
      }
    }
  }

  /** A state of the database, the time it was committed at, and how many reviews had then been saved. */
  datatype Snapshot = Snapshot(db: Database, since: nat, reviews: nat)

  /** One ranking: of which request, from which snapshot (`epoch`), read when, and how many bumps had
      then happened and how many reviews were then still on their way to the version. */
  datatype Computation = Computation(
    request: MatchRequest,
    results: seq<MatchResult>,
    epoch: nat,
    readAt: nat,
    versionThen: nat,
    inFlightThen: nat)

  /** A cache entry: its payload is `computation.results`, its key says `version`. */
  datatype Cached = Cached(computation: Computation, version: nat, writtenAt: nat)

  datatype Source = Computed | Hit(entry: Cached)

  datatype Phase =
    | Arrived(request: MatchRequest, startedAt: nat)
    | Keyed(request: MatchRequest, startedAt: nat, version: nat)
    | Missed(request: MatchRequest, startedAt: nat)
    | Computing(startedAt: nat, computation: Computation)
    | Stamped(startedAt: nat, computation: Computation, version: nat)
    | Replied(request: MatchRequest, results: seq<MatchResult>, startedAt: nat, answeredAt: nat,
               computation: Computation, source: Source)

  datatype World = World(
    now: nat,
    snapshots: seq<Snapshot>,
    unpublished: nat,
    bus: Bus,
    cache: map<string, Timed<Cached>>,
    requests: map<nat, Phase>)

  datatype Event =
    | Tick(seconds: nat)
    | SaveReview(db: Database)
    | PublishReview(fields: Fields, reply: Reply)
    | DropReview
    | OtherWrite(db: Database)
    | OnBus(event: BusEvent)
    | Arrive(id: nat, request: MatchRequest)
    | ReadVersion(id: nat, reply: Reply)
    | ReadEntry(id: nat, reply: Reply)
    | ReadCandidates(id: nat)
    | RereadVersion(id: nat, reply: Reply)
    | WriteEntry(id: nat, reply: Reply)

  function Start(db: Database): World {
    World(0, [Snapshot(db, 0, 0)], 0, EMPTY_BUS, map[], map[])
  }

  /** Reviews saved so far. */
  function Reviews(w: World): nat
    requires w.snapshots != []
  {
    w.snapshots[|w.snapshots| - 1].reviews
  }

  function CurrentDb(w: World): Database
    requires w.snapshots != []
  {
    w.snapshots[|w.snapshots| - 1].db
  }

  /** Reviews committed and not yet counted into the version. */
  function OnTheWay(w: World): nat {
    w.unpublished + InFlight(w.bus)
  }

  function Lookup(svc: Service, w: World, p: Phase, reply: Reply): Phase
    requires p.Keyed?
  {
    var key := BuildCacheKey(p.version, svc.digest(p.request));
    if reply.Raised() || key !in w.cache || !w.cache[key].Live(w.now) then Missed(p.request, p.startedAt)
    else
      var entry := w.cache[key].value;
      Replied(p.request, entry.computation.results, p.startedAt, w.now, entry.computation, Hit(entry))
  }

  function Finish(w: World, startedAt: nat, c: Computation): Phase {
    Replied(c.request, c.results, startedAt, w.now, c, Computed)
  }

  /** One step; a step that is not enabled changes nothing. */
  function Step(svc: Service, w: World, event: Event): (w': World)
    requires w.snapshots != []
    ensures w'.snapshots != []
  {
    match event
    case Tick(seconds) => w.(now := w.now + seconds)
    case SaveReview(db) =>
      w.(snapshots := w.snapshots + [Snapshot(db, w.now, Reviews(w) + 1)], unpublished := w.unpublished + 1)
    case PublishReview(fields, reply) =>
      if w.unpublished == 0 then w
      else w.(unpublished := w.unpublished - 1, bus := EventBus.Step(w.bus, Append(fields, reply)))
    case DropReview =>
      if w.unpublished == 0 then w else w.(unpublished := w.unpublished - 1)
    case OtherWrite(db) => w.(snapshots := w.snapshots + [Snapshot(db, w.now, Reviews(w))])
    case OnBus(e) => w.(bus := EventBus.Step(w.bus, e))
    case Arrive(id, request) =>
      if id in w.requests then w
      else w.(requests := w.requests[id := Arrived(request, w.now)])
    case ReadVersion(id, reply) =>
      if id !in w.requests || !w.requests[id].Arrived? then w
      else
        var p := w.requests[id];
        w.(requests := w.requests[id := if reply.Raised() then Missed(p.request, p.startedAt)
                                        else Keyed(p.request, p.startedAt, w.bus.version)])
    case ReadEntry(id, reply) =>
      if id !in w.requests || !w.requests[id].Keyed? then w
      else
        var p := w.requests[id];
        w.(requests := w.requests[id := Lookup(svc, w, p, reply)])
    case ReadCandidates(id) =>
      if id !in w.requests || !w.requests[id].Missed? then w
      else
        var p := w.requests[id];
        var c := Computation(p.request, svc.rank(CurrentDb(w), p.request), |w.snapshots| - 1, w.now,
                             w.bus.version, OnTheWay(w));
        w.(requests := w.requests[id := Computing(p.startedAt, c)])
    case RereadVersion(id, reply) =>
      if id !in w.requests || !w.requests[id].Computing? then w
      else
        var p := w.requests[id];
        w.(requests := w.requests[id := if reply.Raised() then Finish(w, p.startedAt, p.computation)
                                        else Stamped(p.startedAt, p.computation, w.bus.version)])
    case WriteEntry(id, reply) =>
      if id !in w.requests || !w.requests[id].Stamped? then w
      else
        var p := w.requests[id];
        var key := BuildCacheKey(p.version, svc.digest(p.computation.request));
        var entry := Timed(Cached(p.computation, p.version, w.now), w.now + svc.ttl);
        w.(requests := w.requests[id := Finish(w, p.startedAt, p.computation)],
           cache := if reply.Ran() then w.cache[key := entry] else w.cache)
  }

  function Run(svc: Service, db: Database, events: seq<Event>): (w: World)
    ensures w.snapshots != []
  {
    if events == [] then Start(db)
    else Step(svc, Run(svc, db, events[..|events| - 1]), events[|events| - 1])
  }

  // ----- Every answer is the ranking of some recent database -----

  /** The requests of a run. */
  ghost function Asked(events: seq<Event>): set<MatchRequest> {
    set e | e in events && e.Arrive? :: e.request
  }

  function RequestOf(p: Phase): MatchRequest {
    if p.Computing? || p.Stamped? then p.computation.request else p.request
  }

  ghost predicate AllAsked(w: World, asked: set<MatchRequest>) {
    && (forall key :: key in w.cache ==> w.cache[key].value.computation.request in asked)
    && (forall id :: id in w.requests ==> RequestOf(w.requests[id]) in asked)
  }

  /** `epoch` was the state of the database at `time`. */
  ghost predicate CurrentAt(snapshots: seq<Snapshot>, epoch: nat, time: nat) {
    && epoch < |snapshots|
    && snapshots[epoch].since <= time
    && (epoch + 1 < |snapshots| ==> time <= snapshots[epoch + 1].since)
  }

  /** The computation ranked the database as it was when its candidates were read. */
  ghost predicate Truthful(svc: Service, snapshots: seq<Snapshot>, c: Computation) {
    && CurrentAt(snapshots, c.epoch, c.readAt)
    && c.results == svc.rank(snapshots[c.epoch].db, c.request)
  }

  ghost predicate EntryIsTruthful(svc: Service, w: World, key: string)
    requires key in w.cache
  {
    var e := w.cache[key];
    && key == BuildCacheKey(e.value.version, svc.digest(e.value.computation.request))
    && Truthful(svc, w.snapshots, e.value.computation)
    && e.value.computation.readAt <= e.value.writtenAt <= w.now
    && e.expiresAt == e.value.writtenAt + svc.ttl
  }

  ghost predicate PhaseIsTruthful(svc: Service, w: World, p: Phase) {
    match p
    case Computing(startedAt, c) => Truthful(svc, w.snapshots, c) && startedAt <= c.readAt <= w.now
    case Stamped(startedAt, c, _) => Truthful(svc, w.snapshots, c) && startedAt <= c.readAt <= w.now
    case Replied(request, results, startedAt, answeredAt, c, source) =>
      && Truthful(svc, w.snapshots, c)
      && c.request == request && c.results == results
      && c.readAt <= answeredAt <= w.now
      && match source {
           case Computed => startedAt <= c.readAt
           case Hit(entry) => entry.computation == c && c.readAt <= entry.writtenAt && answeredAt < entry.writtenAt + svc.ttl
         }
    case _ => p.startedAt <= w.now
  }

  ghost predicate HistoryInOrder(w: World) {
    && w.snapshots != []
    && w.snapshots[|w.snapshots| - 1].since <= w.now
  }

  ghost predicate AllTruthful(svc: Service, w: World) {
    && HistoryInOrder(w)
    && (forall key :: key in w.cache ==> EntryIsTruthful(svc, w, key))
    && (forall id :: id in w.requests ==> PhaseIsTruthful(svc, w, w.requests[id]))
  }

  lemma TruthfulSurvivesWrite(svc: Service, snapshots: seq<Snapshot>, s: Snapshot, c: Computation)
    requires Truthful(svc, snapshots, c) && c.readAt <= s.since
    ensures Truthful(svc, snapshots + [s], c)
  {
  }

  lemma WriteKeepsTruth(svc: Service, w: World, w': World, after: Snapshot)
    requires AllTruthful(svc, w)
    requires after.since == w.now && w'.snapshots == w.snapshots + [after]
    requires w'.now == w.now && w'.cache == w.cache && w'.requests == w.requests
    ensures AllTruthful(svc, w')
  {
    forall key | key in w'.cache ensures EntryIsTruthful(svc, w', key) {
      assert EntryIsTruthful(svc, w, key);
      TruthfulSurvivesWrite(svc, w.snapshots, after, w.cache[key].value.computation);
    }
    forall id | id in w'.requests ensures PhaseIsTruthful(svc, w', w'.requests[id]) {
      var p := w.requests[id];
      assert PhaseIsTruthful(svc, w, p);
      match p
      case Computing(_, c) => TruthfulSurvivesWrite(svc, w.snapshots, after, c);
      case Stamped(_, c, _) => TruthfulSurvivesWrite(svc, w.snapshots, after, c);
      case Replied(_, _, _, _, c, _) => TruthfulSurvivesWrite(svc, w.snapshots, after, c);
      case _ =>
    }
  }

  /** A step of the clock, the bus or the review backlog leaves answers and entries alone. */
  lemma QuietStepKeepsTruth(svc: Service, w: World, w': World)
    requires AllTruthful(svc, w)
    requires w'.snapshots == w.snapshots && w.now <= w'.now && w'.cache == w.cache && w'.requests == w.requests
    ensures AllTruthful(svc, w')
  {
    forall key | key in w'.cache ensures EntryIsTruthful(svc, w', key) {
      assert EntryIsTruthful(svc, w, key);
    }
    forall id | id in w'.requests ensures PhaseIsTruthful(svc, w', w'.requests[id]) {
      assert PhaseIsTruthful(svc, w, w.requests[id]);
    }
  }

  lemma HitIsTruthful(svc: Service, w: World, p: Phase, reply: Reply, asked: set<MatchRequest>)
    requires Apart(svc.digest, asked) && AllAsked(w, asked)
    requires AllTruthful(svc, w)
    requires p.Keyed? && PhaseIsTruthful(svc, w, p) && p.request in asked
    ensures PhaseIsTruthful(svc, w, Lookup(svc, w, p, reply))
  {
    var key := BuildCacheKey(p.version, svc.digest(p.request));
    if !reply.Raised() && key in w.cache && w.cache[key].Live(w.now) {
      assert EntryIsTruthful(svc, w, key);
      var entry := w.cache[key].value;
      CacheKeyIsInjective(p.version, svc.digest(p.request), entry.version, svc.digest(entry.computation.request));
    }
  }

  lemma RequestStepIsTruthful(svc: Service, w: World, event: Event, asked: set<MatchRequest>)
    requires Apart(svc.digest, asked) && AllAsked(w, asked)
    requires AllTruthful(svc, w)
    requires event.Arrive? || event.ReadVersion? || event.ReadEntry? || event.ReadCandidates?
             || event.RereadVersion? || event.WriteEntry?
    requires event.id in Step(svc, w, event).requests
    ensures PhaseIsTruthful(svc, w, Step(svc, w, event).requests[event.id])
  {
    if event.id in w.requests {
      var p := w.requests[event.id];
      assert PhaseIsTruthful(svc, w, p);
      if event.ReadEntry? && p.Keyed? {
        HitIsTruthful(svc, w, p, event.reply, asked);
      }
    }
  }

  lemma WriteEntryKeepsTruth(svc: Service, w: World, event: Event)
    requires AllTruthful(svc, w) && event.WriteEntry?
    ensures forall key :: key in Step(svc, w, event).cache ==> EntryIsTruthful(svc, Step(svc, w, event), key)
  {
    var w' := Step(svc, w, event);
    if event.id in w.requests {
      assert PhaseIsTruthful(svc, w, w.requests[event.id]);
    }
    forall key | key in w'.cache ensures EntryIsTruthful(svc, w', key) {
      if key in w.cache {
        assert EntryIsTruthful(svc, w, key);
      }
    }
  }

  predicate OfRequest(event: Event) {
    event.Arrive? || event.ReadVersion? || event.ReadEntry? || event.ReadCandidates?
    || event.RereadVersion? || event.WriteEntry?
  }

  lemma RequestStepKeepsPhases(svc: Service, w: World, event: Event, asked: set<MatchRequest>)
    requires Apart(svc.digest, asked) && AllAsked(w, asked)
    requires AllTruthful(svc, w) && OfRequest(event)
    ensures var w' := Step(svc, w, event);
      && w'.snapshots == w.snapshots && w'.now == w.now
      && forall id :: id in w'.requests ==> PhaseIsTruthful(svc, w', w'.requests[id])
  {
    var w' := Step(svc, w, event);
    forall id | id in w'.requests ensures PhaseIsTruthful(svc, w', w'.requests[id]) {
      if id == event.id {
        RequestStepIsTruthful(svc, w, event, asked);
        assert PhaseIsTruthful(svc, w, w'.requests[id]);
      } else {
        assert w'.requests[id] == w.requests[id];
        assert PhaseIsTruthful(svc, w, w.requests[id]);
      }
    }
  }

  lemma RequestStepKeepsEntries(svc: Service, w: World, event: Event)
    requires AllTruthful(svc, w) && OfRequest(event)
    ensures var w' := Step(svc, w, event);
      forall key :: key in w'.cache ==> EntryIsTruthful(svc, w', key)
  {
    var w' := Step(svc, w, event);
    forall key | key in w'.cache ensures EntryIsTruthful(svc, w', key) {
      if event.WriteEntry? {
        WriteEntryKeepsTruth(svc, w, event);
      } else {
        assert w'.cache == w.cache;
        assert EntryIsTruthful(svc, w, key);
      }
    }
  }

  lemma RequestStepKeepsTruth(svc: Service, w: World, event: Event, asked: set<MatchRequest>)
    requires Apart(svc.digest, asked) && AllAsked(w, asked)
    requires AllTruthful(svc, w) && OfRequest(event)
    ensures AllTruthful(svc, Step(svc, w, event))
  {
    RequestStepKeepsPhases(svc, w, event, asked);
    RequestStepKeepsEntries(svc, w, event);
  }

  lemma StepKeepsTruth(svc: Service, w: World, event: Event, asked: set<MatchRequest>)
    requires Apart(svc.digest, asked) && AllAsked(w, asked)
    requires AllTruthful(svc, w)
    ensures AllTruthful(svc, Step(svc, w, event))
  {
    var w' := Step(svc, w, event);
    match event
    case SaveReview(db) =>
      WriteKeepsTruth(svc, w, w', Snapshot(db, w.now, Reviews(w) + 1));
    case OtherWrite(db) =>
      WriteKeepsTruth(svc, w, w', Snapshot(db, w.now, Reviews(w)));
    case Tick(_) => QuietStepKeepsTruth(svc, w, w');
    case PublishReview(_, _) => QuietStepKeepsTruth(svc, w, w');
    case DropReview => QuietStepKeepsTruth(svc, w, w');
    case OnBus(_) => QuietStepKeepsTruth(svc, w, w');
    case _ => RequestStepKeepsTruth(svc, w, event, asked);
  }

  lemma StepKeepsAsked(svc: Service, w: World, event: Event, asked: set<MatchRequest>)
    requires w.snapshots != [] && AllAsked(w, asked) && (event.Arrive? ==> event.request in asked)
    ensures AllAsked(Step(svc, w, event), asked)
  {
    var w' := Step(svc, w, event);
    if OfRequest(event) {
      forall id | id in w'.requests ensures RequestOf(w'.requests[id]) in asked {
        if id in w.requests {
          assert RequestOf(w.requests[id]) in asked;
        }
      }
    }
  }

  lemma {:induction false} RunIsTruthful(svc: Service, db: Database, events: seq<Event>, asked: set<MatchRequest>)
    requires Apart(svc.digest, asked) && Asked(events) <= asked
    ensures AllTruthful(svc, Run(svc, db, events)) && AllAsked(Run(svc, db, events), asked)
  {
    if events != [] {
      var n := |events| - 1;
      assert events[n].Arrive? ==> events[n] in events && events[n].request in Asked(events);
      assert Asked(events[..n]) <= Asked(events);
      RunIsTruthful(svc, db, events[..n], asked);
      StepKeepsTruth(svc, Run(svc, db, events[..n]), events[n], asked);
      StepKeepsAsked(svc, Run(svc, db, events[..n]), events[n], asked);
    }
  }

  /** Bounded staleness, in every run: races, lost publishes, failed handling, crashes, Redis faults and
      writes that publish nothing included. Each answer is the ranking of the database as it was at some
      instant; that instant is after the arrival of the request if the answer was computed, and otherwise
      no earlier than the answer minus the TTL minus the time the entry took from read to write. */
  lemma BoundedStaleness(svc: Service, db: Database, events: seq<Event>, id: nat)
    requires Apart(svc.digest, Asked(events))
    requires id in Run(svc, db, events).requests && Run(svc, db, events).requests[id].Replied?
    ensures var w := Run(svc, db, events);
      var p := w.requests[id];
      var c := p.computation;
      && CurrentAt(w.snapshots, c.epoch, c.readAt)
      && p.results == svc.rank(w.snapshots[c.epoch].db, p.request)
      && match p.source {
           case Computed => p.startedAt <= c.readAt <= p.answeredAt
           case Hit(entry) => p.answeredAt - svc.ttl - (entry.writtenAt - c.readAt) < c.readAt <= p.answeredAt
         }
  {
    RunIsTruthful(svc, db, events, Asked(events));
    assert PhaseIsTruthful(svc, Run(svc, db, events), Run(svc, db, events).requests[id]);
  }

  // ----- Redis down: the answer is computed afresh -----

  /** Each version read of request `id` raises, or each entry read does. */
  predicate ReadsFail(events: seq<Event>, id: nat) {
    || (forall e :: e in events && e.ReadVersion? && e.id == id ==> e.reply.Raised())
    || (forall e :: e in events && e.ReadEntry? && e.id == id ==> e.reply.Raised())
  }

  /** Request `id` has not been served out of the cache; nor can it be, if it has not even got a version. */
  ghost predicate NoHit(w: World, id: nat, unversioned: bool) {
    id in w.requests ==>
      && (unversioned ==> !w.requests[id].Keyed?)
      && (w.requests[id].Replied? ==> w.requests[id].source.Computed?)
  }

  lemma StepKeepsNoHit(svc: Service, w: World, event: Event, id: nat, unversioned: bool)
    requires w.snapshots != [] && NoHit(w, id, unversioned)
    requires if unversioned then event.ReadVersion? && event.id == id ==> event.reply.Raised()
             else event.ReadEntry? && event.id == id ==> event.reply.Raised()
    ensures NoHit(Step(svc, w, event), id, unversioned)
  {
  }

  lemma {:induction false} FailedReadsNeverHit(svc: Service, db: Database, events: seq<Event>, id: nat, unversioned: bool)
    requires if unversioned then forall e :: e in events && e.ReadVersion? && e.id == id ==> e.reply.Raised()
             else forall e :: e in events && e.ReadEntry? && e.id == id ==> e.reply.Raised()
    ensures NoHit(Run(svc, db, events), id, unversioned)
  {
    if events != [] {
      var n := |events| - 1;
      assert events[n] in events && forall e :: e in events[..n] ==> e in events;
      FailedReadsNeverHit(svc, db, events[..n], id, unversioned);
      StepKeepsNoHit(svc, Run(svc, db, events[..n]), events[n], id, unversioned);
    }
  }

  /** A request that fails to read its version or its entry is answered with the ranking of the database as
      it was between its arrival and its answer, whatever Redis does for all other requests and events. */
  lemma RedisDownAnswersFresh(svc: Service, db: Database, events: seq<Event>, id: nat)
    requires Apart(svc.digest, Asked(events))
    requires ReadsFail(events, id)
    requires id in Run(svc, db, events).requests && Run(svc, db, events).requests[id].Replied?
    ensures var w := Run(svc, db, events);
      var p := w.requests[id];
      && p.source.Computed?
      && exists epoch: nat, time: nat {:trigger CurrentAt(w.snapshots, epoch, time)} ::
        && p.startedAt <= time <= p.answeredAt
        && CurrentAt(w.snapshots, epoch, time)
        && p.results == svc.rank(w.snapshots[epoch].db, p.request)
  {
    BoundedStaleness(svc, db, events, id);
    FailedReadsNeverHit(svc, db, events, id,
                        forall e :: e in events && e.ReadVersion? && e.id == id ==> e.reply.Raised());
    var w := Run(svc, db, events);
    var c := w.requests[id].computation;
    assert CurrentAt(w.snapshots, c.epoch, c.readAt);
  }

  // ----- Coherence -----

  /** Both databases give every request the same answer. */
  ghost predicate SameAnswers(svc: Service, db: Database, db': Database) {
    forall request :: svc.rank(db, request) == svc.rank(db', request)
  }

  /** No review is lost on its way to the version, and only reviews send invalidating events. Cache reads
      and writes may fail; so may acknowledgements. */
  predicate LosesNoReview(event: Event) {
    match event
    case PublishReview(fields, reply) => Invalidating(fields) && reply.Ran()
    case DropReview => false
    case OnBus(e) => Lossless(e) && (e.Append? ==> !Invalidating(e.fields))
    case _ => true
  }

  /** And nothing but a review changes an answer. */
  ghost predicate LosslessEvent(svc: Service, w: World, event: Event)
    requires w.snapshots != []
  {
    LosesNoReview(event) && (event.OtherWrite? ==> SameAnswers(svc, CurrentDb(w), event.db))
  }

  ghost predicate LosslessRun(svc: Service, db: Database, events: seq<Event>) {
    events != [] ==>
      && LosslessRun(svc, db, events[..|events| - 1])
      && LosslessEvent(svc, Run(svc, db, events[..|events| - 1]), events[|events| - 1])
  }

  /** Every review is either counted in the version or on its way. */
  ghost predicate Counted(w: World) {
    w.snapshots != [] && Conserved(w.bus) && Reviews(w) == w.bus.version + OnTheWay(w)
  }

  ghost predicate SnapshotBalanced(svc: Service, w: World, s: Snapshot)
    requires w.snapshots != []
  {
    s.reviews <= Reviews(w) && (s.reviews == Reviews(w) ==> SameAnswers(svc, s.db, CurrentDb(w)))
  }

  /** And between two reviews no answer changes. */
  ghost predicate Balanced(svc: Service, w: World) {
    && Counted(w)
    && (forall i :: 0 <= i < |w.snapshots| ==> SnapshotBalanced(svc, w, w.snapshots[i]))
  }

  ghost predicate ComputationBalanced(w: World, c: Computation) {
    c.epoch < |w.snapshots| && w.snapshots[c.epoch].reviews == c.versionThen + c.inFlightThen
  }

  ghost predicate CacheBalanced(w: World) {
    && (forall key :: key in w.cache ==> ComputationBalanced(w, w.cache[key].value.computation))
    && (forall id :: id in w.requests ==>
          && (w.requests[id].Computing? ==> ComputationBalanced(w, w.requests[id].computation))
          && (w.requests[id].Stamped? ==> ComputationBalanced(w, w.requests[id].computation)))
  }

  lemma PublishKeepsCount(svc: Service, w: World, fields: Fields, reply: Reply)
    requires Counted(w) && LosesNoReview(PublishReview(fields, reply))
    ensures Counted(Step(svc, w, PublishReview(fields, reply)))
  {
    LosslessStepBalances(w.bus, Append(fields, reply));
  }

  lemma BusKeepsCount(svc: Service, w: World, event: BusEvent)
    requires Counted(w) && LosesNoReview(OnBus(event))
    ensures Counted(Step(svc, w, OnBus(event)))
  {
    LosslessStepBalances(w.bus, event);
  }

  lemma RequestKeepsCount(svc: Service, w: World, event: Event)
    requires Counted(w) && OfRequest(event)
    ensures Counted(Step(svc, w, event))
  {
    var w' := Step(svc, w, event);
    assert w'.bus == w.bus && w'.snapshots == w.snapshots && w'.unpublished == w.unpublished;
  }

  lemma StepKeepsCount(svc: Service, w: World, event: Event)
    requires Counted(w) && LosesNoReview(event)
    ensures Counted(Step(svc, w, event))
  {
    match event
    case PublishReview(fields, reply) => PublishKeepsCount(svc, w, fields, reply);
    case OnBus(e) => BusKeepsCount(svc, w, e);
    case Tick(_) =>
    case SaveReview(_) =>
    case OtherWrite(_) =>
    case DropReview =>
    case _ => RequestKeepsCount(svc, w, event);
  }

  lemma StepKeepsBalance(svc: Service, w: World, event: Event)
    requires Balanced(svc, w) && LosslessEvent(svc, w, event)
    ensures Balanced(svc, Step(svc, w, event))
  {
    var w' := Step(svc, w, event);
    StepKeepsCount(svc, w, event);
    forall i | 0 <= i < |w'.snapshots| ensures SnapshotBalanced(svc, w', w'.snapshots[i]) {
      if i < |w.snapshots| {
        assert SnapshotBalanced(svc, w, w.snapshots[i]);
      }
    }
  }

  /** Snapshots are only ever added. */
  lemma SnapshotsStay(svc: Service, w: World, event: Event)
    requires w.snapshots != []
    ensures var w' := Step(svc, w, event);
      |w.snapshots| <= |w'.snapshots| && w'.snapshots[..|w.snapshots|] == w.snapshots
  {
  }

  lemma ComputationStaysBalanced(w: World, w': World, c: Computation)
    requires |w.snapshots| <= |w'.snapshots| && w'.snapshots[..|w.snapshots|] == w.snapshots
    requires ComputationBalanced(w, c)
    ensures ComputationBalanced(w', c)
  {
    assert w'.snapshots[c.epoch] == w'.snapshots[..|w.snapshots|][c.epoch];
  }

  lemma StepKeepsEntriesBalanced(svc: Service, w: World, event: Event)
    requires Balanced(svc, w) && CacheBalanced(w)
    ensures var w' := Step(svc, w, event);
      forall key :: key in w'.cache ==> ComputationBalanced(w', w'.cache[key].value.computation)
  {
    var w' := Step(svc, w, event);
    SnapshotsStay(svc, w, event);
    forall key | key in w'.cache ensures ComputationBalanced(w', w'.cache[key].value.computation) {
      ComputationStaysBalanced(w, w', w'.cache[key].value.computation);
    }
  }

  /** A request whose candidates have been read and not yet answered. */
  predicate HasComputed(p: Phase) {
    p.Computing? || p.Stamped?
  }

  lemma StepKeepsRequestBalanced(svc: Service, w: World, event: Event, id: nat)
    requires Balanced(svc, w) && CacheBalanced(w) && LosslessEvent(svc, w, event)
    requires id in Step(svc, w, event).requests && HasComputed(Step(svc, w, event).requests[id])
    ensures ComputationBalanced(Step(svc, w, event), Step(svc, w, event).requests[id].computation)
  {
    var w' := Step(svc, w, event);
    SnapshotsStay(svc, w, event);
    if id in w.requests && HasComputed(w.requests[id]) {
      ComputationStaysBalanced(w, w', w'.requests[id].computation);
    }
  }

  lemma StepKeepsCacheBalance(svc: Service, w: World, event: Event)
    requires Balanced(svc, w) && CacheBalanced(w) && LosslessEvent(svc, w, event)
    ensures CacheBalanced(Step(svc, w, event))
  {
    var w' := Step(svc, w, event);
    StepKeepsEntriesBalanced(svc, w, event);
    forall id | id in w'.requests && HasComputed(w'.requests[id]) ensures ComputationBalanced(w', w'.requests[id].computation) {
      StepKeepsRequestBalanced(svc, w, event, id);
    }
  }

  lemma {:induction false} LosslessRunIsBalanced(svc: Service, db: Database, events: seq<Event>)
    requires LosslessRun(svc, db, events)
    ensures Balanced(svc, Run(svc, db, events)) && CacheBalanced(Run(svc, db, events))
  {
    if events != [] {
      var n := |events| - 1;
      LosslessRunIsBalanced(svc, db, events[..n]);
      StepKeepsBalance(svc, Run(svc, db, events[..n]), events[n]);
      StepKeepsCacheBalance(svc, Run(svc, db, events[..n]), events[n]);
    }
  }

  /** The version the entry was stamped with had moved past what was on its way when its candidates
      were read: `set_cached` re-reads the version after the computation. */
  predicate Overtaken(entry: Cached) {
    entry.version - entry.computation.versionThen > entry.computation.inFlightThen
  }

  lemma ReviewsOfCurrentEntry(svc: Service, w: World, key: string)
    requires AllTruthful(svc, w) && Balanced(svc, w) && CacheBalanced(w)
    requires key in w.cache && w.cache[key].value.version == w.bus.version
    ensures var entry := w.cache[key].value;
      var c := entry.computation;
      && Truthful(svc, w.snapshots, c)
      && SnapshotBalanced(svc, w, w.snapshots[c.epoch])
      && w.snapshots[c.epoch].reviews == c.versionThen + c.inFlightThen <= Reviews(w) == entry.version + OnTheWay(w)
  {
    assert EntryIsTruthful(svc, w, key);
    assert ComputationBalanced(w, w.cache[key].value.computation);
  }

  /** Exactly when the cache is coherent: once no review is on its way, no review was saved since the
      candidates behind an entry under the current version were read if and only if the version did not
      overtake it; and then the entry is the current ranking. In particular it is if no bump fell between
      its candidate read and its re-read. */
  lemma CoherentIffNotOvertaken(svc: Service, db: Database, events: seq<Event>, key: string)
    requires Apart(svc.digest, Asked(events))
    requires LosslessRun(svc, db, events)
    requires key in Run(svc, db, events).cache
    requires Run(svc, db, events).cache[key].value.version == Run(svc, db, events).bus.version
    requires OnTheWay(Run(svc, db, events)) == 0
    ensures var w := Run(svc, db, events);
      var entry := w.cache[key].value;
      var c := entry.computation;
      && c.epoch < |w.snapshots|
      && (w.snapshots[c.epoch].reviews == Reviews(w) <==> !Overtaken(entry))
      && (!Overtaken(entry) ==> c.results == svc.rank(CurrentDb(w), c.request))
      && (entry.version == c.versionThen ==> !Overtaken(entry))
  {
    RunIsTruthful(svc, db, events, Asked(events));
    LosslessRunIsBalanced(svc, db, events);
    ReviewsOfCurrentEntry(svc, Run(svc, db, events), key);
  }

  /** In a lossless run an entry under the current version that was not overtaken is fresh, or a review
      is still on its way that will hide it. */
  lemma FreshOrOnTheWay(svc: Service, db: Database, events: seq<Event>, key: string)
    requires Apart(svc.digest, Asked(events))
    requires LosslessRun(svc, db, events)
    requires key in Run(svc, db, events).cache
    requires Run(svc, db, events).cache[key].value.version == Run(svc, db, events).bus.version
    requires !Overtaken(Run(svc, db, events).cache[key].value)
    ensures var w := Run(svc, db, events);
      var entry := w.cache[key].value;
      || OnTheWay(w) > 0
      || entry.computation.results == svc.rank(CurrentDb(w), entry.computation.request)
  {
    if OnTheWay(Run(svc, db, events)) == 0 {
      CoherentIffNotOvertaken(svc, db, events, key);
    }
  }

  /** Without other writes, a run is lossless if it loses no review. */
  lemma {:induction false} LosslessEvents(svc: Service, db: Database, events: seq<Event>)
    requires forall e :: e in events ==> LosesNoReview(e) && !e.OtherWrite?
    ensures LosslessRun(svc, db, events)
  {
    if events != [] {
      assert events[|events| - 1] in events;
      LosslessEvents(svc, db, events[..|events| - 1]);
    }
  }

  // ----- The race that makes the condition necessary -----

  function RunFrom(svc: Service, w: World, events: seq<Event>): (w': World)
    requires w.snapshots != []
    ensures w'.snapshots != []
    decreases |events|
  {
    if events == [] then w else RunFrom(svc, Step(svc, w, events[0]), events[1..])
  }

  lemma {:induction false} RunFromExtendsRun(svc: Service, db: Database, before: seq<Event>, events: seq<Event>)
    ensures Run(svc, db, before + events) == RunFrom(svc, Run(svc, db, before), events)
    decreases |events|
  {
    if events == [] {
      assert before + events == before;
    } else {
      var first := before + [events[0]];
      assert first[..|before|] == before;
      assert before + events == first + events[1..];
      RunFromExtendsRun(svc, db, first, events[1..]);
    }
  }

  /** A first request misses and reads its candidates. */
  function MissAndRead(request: MatchRequest): seq<Event> {
    [Arrive(0, request), ReadVersion(0, Answered), ReadEntry(0, Answered), ReadCandidates(0)]
  }

  /** A review is saved, published, read by the consumer, counted and acknowledged. */
  function ReviewAndBump(db': Database, fields: Fields): seq<Event> {
    [SaveReview(db'), PublishReview(fields, Answered),
     OnBus(ReadGroup(Answered)), OnBus(Process(Answered)), OnBus(Acknowledge(Answered))]
  }

  /** The first request stamps its entry with the new version; a second request is served it. */
  function StampAndServe(request: MatchRequest): seq<Event> {
    [RereadVersion(0, Answered), WriteEntry(0, Answered),
     Arrive(1, request), ReadVersion(1, Answered), ReadEntry(1, Answered)]
  }

  function RaceRun(request: MatchRequest, db': Database, fields: Fields): seq<Event> {
    MissAndRead(request) + ReviewAndBump(db', fields) + StampAndServe(request)
  }

  lemma FirstStep(svc: Service, w: World, e: Event, rest: seq<Event>)
    requires w.snapshots != []
    ensures RunFrom(svc, w, [e] + rest) == RunFrom(svc, Step(svc, w, e), rest)
  {
    assert ([e] + rest)[1..] == rest;
  }

  lemma RunFromOne(svc: Service, w: World, e: Event)
    requires w.snapshots != []
    ensures RunFrom(svc, w, [e]) == Step(svc, w, e)
  {
    assert [e] + [] == [e];
    FirstStep(svc, w, e, []);
  }

  lemma TwoSteps(svc: Service, w: World, e0: Event, e1: Event)
    requires w.snapshots != []
    ensures RunFrom(svc, w, [e0, e1]) == Step(svc, Step(svc, w, e0), e1)
  {
    assert [e0] + [e1] == [e0, e1];
    FirstStep(svc, w, e0, [e1]);
    RunFromOne(svc, Step(svc, w, e0), e1);
  }

  lemma ThreeSteps(svc: Service, w: World, e0: Event, e1: Event, e2: Event)
    requires w.snapshots != []
    ensures RunFrom(svc, w, [e0, e1, e2]) == Step(svc, Step(svc, Step(svc, w, e0), e1), e2)
  {
    assert [e0] + [e1, e2] == [e0, e1, e2];
    FirstStep(svc, w, e0, [e1, e2]);
    TwoSteps(svc, Step(svc, w, e0), e1, e2);
  }

  lemma FourSteps(svc: Service, w: World, e0: Event, e1: Event, e2: Event, e3: Event)
    requires w.snapshots != []
    ensures RunFrom(svc, w, [e0, e1, e2, e3])
         == Step(svc, Step(svc, Step(svc, Step(svc, w, e0), e1), e2), e3)
  {
    assert [e0] + [e1, e2, e3] == [e0, e1, e2, e3];
    FirstStep(svc, w, e0, [e1, e2, e3]);
    ThreeSteps(svc, Step(svc, w, e0), e1, e2, e3);
  }

  lemma FiveSteps(svc: Service, w: World, e0: Event, e1: Event, e2: Event, e3: Event, e4: Event)
    requires w.snapshots != []
    ensures RunFrom(svc, w, [e0, e1, e2, e3, e4])
         == Step(svc, Step(svc, Step(svc, Step(svc, Step(svc, w, e0), e1), e2), e3), e4)
  {
    assert [e0] + [e1, e2, e3, e4] == [e0, e1, e2, e3, e4];
    FirstStep(svc, w, e0, [e1, e2, e3, e4]);
    FourSteps(svc, Step(svc, w, e0), e1, e2, e3, e4);
  }

  lemma AfterMissAndRead(svc: Service, db: Database, request: MatchRequest) returns (w: World)
    ensures w == Run(svc, db, MissAndRead(request))
    ensures w == Start(db).(requests := map[0 := Computing(0, Computation(request, svc.rank(db, request), 0, 0, 0, 0))])
  {
    var w0 := Start(db);
    var w1 := Step(svc, w0, Arrive(0, request));
    var w2 := Step(svc, w1, ReadVersion(0, Answered));
    var w3 := Step(svc, w2, ReadEntry(0, Answered));
    w := Step(svc, w3, ReadCandidates(0));
    assert OnTheWay(w3) == 0;
    FourSteps(svc, w0, Arrive(0, request), ReadVersion(0, Answered), ReadEntry(0, Answered), ReadCandidates(0));
    RunFromExtendsRun(svc, db, [], MissAndRead(request));
    assert [] + MissAndRead(request) == MissAndRead(request);
  }

  lemma AfterReviewAndBump(svc: Service, w: World, db': Database, fields: Fields) returns (w': World)
    requires w.snapshots != [] && w.bus == EMPTY_BUS && w.unpublished == 0
    requires Invalidating(fields)
    ensures w' == RunFrom(svc, w, ReviewAndBump(db', fields))
    ensures w'.cache == w.cache && w'.requests == w.requests && w'.now == w.now
    ensures w'.snapshots == w.snapshots + [Snapshot(db', w.now, Reviews(w) + 1)]
    ensures w'.bus.version == 1 && OnTheWay(w') == 0
  {
    var w1 := Step(svc, w, SaveReview(db'));
    var w2 := Step(svc, w1, PublishReview(fields, Answered));
    var w3 := Step(svc, w2, OnBus(ReadGroup(Answered)));
    var w4 := Step(svc, w3, OnBus(Process(Answered)));
    w' := Step(svc, w4, OnBus(Acknowledge(Answered)));
    FiveSteps(svc, w, SaveReview(db'), PublishReview(fields, Answered), OnBus(ReadGroup(Answered)),
              OnBus(Process(Answered)), OnBus(Acknowledge(Answered)));
    assert w2.bus.stream == [fields];
    assert w3.bus.next == 0 && w3.bus.cursor == 1;
    assert w4.bus.acking && w4.bus.version == 1;
    assert w'.bus.next == 1 && w'.bus.stream[1..] == [];
  }

  lemma AfterStampAndServe(svc: Service, w: World, c: Computation) returns (w': World)
    requires w.snapshots != [] && svc.ttl > 0
    requires w.requests == map[0 := Computing(0, c)]
    ensures w' == RunFrom(svc, w, StampAndServe(c.request))
    ensures w'.snapshots == w.snapshots && w'.bus == w.bus && w'.unpublished == w.unpublished
    ensures 1 in w'.requests && w'.requests[1].Replied? && w'.requests[1].results == c.results
  {
    var w1 := Step(svc, w, RereadVersion(0, Answered));
    var w2 := Step(svc, w1, WriteEntry(0, Answered));
    var w3 := Step(svc, w2, Arrive(1, c.request));
    var w4 := Step(svc, w3, ReadVersion(1, Answered));
    w' := Step(svc, w4, ReadEntry(1, Answered));
    FiveSteps(svc, w, RereadVersion(0, Answered), WriteEntry(0, Answered), Arrive(1, c.request),
              ReadVersion(1, Answered), ReadEntry(1, Answered));
    assert w1.requests[0] == Stamped(0, c, w.bus.version);
    var key := BuildCacheKey(w.bus.version, svc.digest(c.request));
    assert w2.cache == w.cache[key := Timed(Cached(c, w.bus.version, w.now), w.now + svc.ttl)];
    assert w4.requests[1] == Keyed(c.request, w.now, w.bus.version);
  }

  /** Whenever a review changes the answer to a request, this lossless run ends with no review on its
      way and a request served the answer from before the review, out of an entry live for a full TTL. */
  lemma RaceServesStaleResults(svc: Service, db: Database, db': Database, request: MatchRequest, fields: Fields)
    requires svc.ttl > 0
    requires Invalidating(fields)
    requires svc.rank(db, request) != svc.rank(db', request)
    ensures var events := RaceRun(request, db', fields);
      var w := Run(svc, db, events);
      && LosslessRun(svc, db, events)
      && OnTheWay(w) == 0
      && CurrentDb(w) == db'
      && 1 in w.requests && w.requests[1].Replied?
      && w.requests[1].results == svc.rank(db, request) != svc.rank(CurrentDb(w), request)
  {
    var first, second, third := MissAndRead(request), ReviewAndBump(db', fields), StampAndServe(request);
    var w1 := AfterMissAndRead(svc, db, request);
    var w2 := AfterReviewAndBump(svc, w1, db', fields);
    RunFromExtendsRun(svc, db, first, second);
    var w3 := AfterStampAndServe(svc, w2, w1.requests[0].computation);
    RunFromExtendsRun(svc, db, first + second, third);
    forall e | e in RaceRun(request, db', fields) ensures LosesNoReview(e) && !e.OtherWrite? {
      assert e in first || e in second || e in third;
    }
    LosslessEvents(svc, db, RaceRun(request, db', fields));
  }
}
