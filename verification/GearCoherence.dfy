/** One run of everything behind /match: the gear locker's writes and its publishes as separate steps, the
    bus, the cache and any number of requests. */
module GearCoherence {
  import opened Basics
  import opened Entities
  import opened Scoring
  import opened FreelancerRepo
  import opened Ranking
  import opened MatchService
  import EventBus
  import GearLocker
  import GearMatching
  import CacheCoherence
  import ConsumerProgress

  /** The gear table, the events of the reviews saved and not yet published, and the rest. */
  datatype System = System(table: seq<Gear>, backlog: seq<EventBus.Fields>, world: CacheCoherence.World)

  /** `Write` is the database write of one handler. A review publishes in a later step, in any order with
      other reviews, or never if the backend stops before it. `Other` is a step of the clock, the bus or a
      request. */
  datatype Event =
    | Write(event: GearLocker.GearEvent)
    | Publish(k: nat, reply: Reply)
    | Stop(k: nat)
    | Other(step: CacheCoherence.Event)

  /** What a review that is saved has to publish. */
  function ToPublish(table: seq<Gear>, event: GearLocker.GearEvent): Option<EventBus.Fields> {
    if !event.Review? || event.decision == Pending then None
    else
      var result := GearLocker.Reviewed(table, event.gearId, event.decision).result;
      if result.Failed? then None
      else Some(EventBus.EventFields(GearLocker.ReviewType(event.decision), GearLocker.ReviewPayload(result.gear)))
  }

  /** It is what the service appends. */
  lemma PublishesWhatTheServiceDoes(table: seq<Gear>, gearId: Uuid, decision: GearStatus, bus: EventBus.Bus, publish: Reply)
    requires decision != Pending
    ensures var (result, fields) := (GearLocker.Reviewed(table, gearId, decision).result, ToPublish(table, GearLocker.Review(gearId, decision)));
      && (fields.Some? <==> result.Saved?)
      && GearLocker.AfterReview(bus, result, decision, publish)
         == if fields.Some? then EventBus.Step(bus, EventBus.Append(fields.value, publish)) else bus
  {
  }

  /** What the event is to the cache machine. */
  function Translate(users: seq<User>, s: System, event: Event): CacheCoherence.Event {
    match event
    case Write(e) =>
      var db := Database(users, GearLocker.Apply(s.table, e));
      if ToPublish(s.table, e).Some? then CacheCoherence.SaveReview(db) else CacheCoherence.OtherWrite(db)
    case Publish(k, reply) =>
      if k < |s.backlog| then CacheCoherence.PublishReview(s.backlog[k], reply) else CacheCoherence.Tick(0)
    case Stop(k) => if k < |s.backlog| then CacheCoherence.DropReview else CacheCoherence.Tick(0)
    case Other(step) =>
      if step.Tick? || step.OnBus? || CacheCoherence.OfRequest(step) then step else CacheCoherence.Tick(0)
  }

  function Backlog(s: System, event: Event): seq<EventBus.Fields> {
    match event
    case Write(e) => s.backlog + if ToPublish(s.table, e).Some? then [ToPublish(s.table, e).value] else []
    case Publish(k, _) => if k < |s.backlog| then Without(s.backlog, k) else s.backlog
    case Stop(k) => if k < |s.backlog| then Without(s.backlog, k) else s.backlog
    case Other(_) => s.backlog
  }

  function Step(svc: CacheCoherence.Service, users: seq<User>, s: System, event: Event): System
    requires s.world.snapshots != []
  {
    System(if event.Write? then GearLocker.Apply(s.table, event.event) else s.table,
           Backlog(s, event),
           CacheCoherence.Step(svc, s.world, Translate(users, s, event)))
  }

  function Run(svc: CacheCoherence.Service, db: Database, events: seq<Event>): (s: System)
    ensures s.world.snapshots != []
  {
    if events == [] then System(db.gear, [], CacheCoherence.Start(db))
    else Step(svc, db.users, Run(svc, db, events[..|events| - 1]), events[|events| - 1])
  }

  /** The run as the cache machine sees it. */
  function Translated(svc: CacheCoherence.Service, db: Database, events: seq<Event>): seq<CacheCoherence.Event> {
    if events == [] then []
    else
      var earlier := events[..|events| - 1];
      Translated(svc, db, earlier) + [Translate(db.users, Run(svc, db, earlier), events[|events| - 1])]
  }

  ghost predicate Linked(users: seq<User>, s: System) {
    && s.world.snapshots != []
    && CacheCoherence.CurrentDb(s.world) == Database(users, s.table)
    && |s.backlog| == s.world.unpublished
    && (forall fields :: fields in s.backlog ==> EventBus.Invalidating(fields))
  }

  lemma StepKeepsLinked(svc: CacheCoherence.Service, users: seq<User>, s: System, event: Event)
    requires Linked(users, s)
    ensures Linked(users, Step(svc, users, s, event))
  {
    if event.Write? && ToPublish(s.table, event.event).Some? {
      var result := GearLocker.Reviewed(s.table, event.event.gearId, event.event.decision).result;
      GearLocker.ReviewEventInvalidates(result.gear, event.event.decision);
    }
  }

  lemma {:induction false} TranslatedLength(svc: CacheCoherence.Service, db: Database, events: seq<Event>)
    ensures |Translated(svc, db, events)| == |events|
  {
    if events != [] {
      TranslatedLength(svc, db, events[..|events| - 1]);
    }
  }

  lemma {:induction false} RunIsTranslated(svc: CacheCoherence.Service, db: Database, events: seq<Event>)
    ensures Linked(db.users, Run(svc, db, events))
    ensures Run(svc, db, events).world == CacheCoherence.Run(svc, db, Translated(svc, db, events))
  {
    if events != [] {
      var earlier := events[..|events| - 1];
      RunIsTranslated(svc, db, earlier);
      StepKeepsLinked(svc, db.users, Run(svc, db, earlier), events[|events| - 1]);
      assert Translated(svc, db, events)[..|earlier|] == Translated(svc, db, earlier) by {
        TranslatedLength(svc, db, earlier);
      }
      TranslatedLength(svc, db, events);
    }
  }

  ghost function Asked(events: seq<Event>): set<MatchRequest> {
    set e | e in events && e.Other? && e.step.Arrive? :: e.step.request
  }

  lemma {:induction false} TranslatedAsks(svc: CacheCoherence.Service, db: Database, events: seq<Event>)
    ensures CacheCoherence.Asked(Translated(svc, db, events)) <= Asked(events)
  {
    if events != [] {
      var (earlier, last) := (events[..|events| - 1], events[|events| - 1]);
      TranslatedAsks(svc, db, earlier);
      assert last in events && forall e :: e in earlier ==> e in events;
      forall e | e in Translated(svc, db, events) && e.Arrive? ensures e.request in Asked(events) {
        assert e in Translated(svc, db, earlier) || e == Translate(db.users, Run(svc, db, earlier), last);
        if e in Translated(svc, db, earlier) {
          assert e.request in CacheCoherence.Asked(Translated(svc, db, earlier));
        }
      }
    }
  }

  // ----- Coherence of the whole -----

  /** The backend publishes what it saves, and the bus loses nothing. */
  predicate Lossless(event: Event) {
    match event
    case Publish(_, reply) => reply.Ran()
    case Stop(_) => false
    case Other(step) => CacheCoherence.LosesNoReview(step)
    case Write(_) => true
  }

  lemma UnpublishedKeepsRanking(users: seq<User>, table: seq<Gear>, event: GearLocker.GearEvent, geo: Geo, request: MatchRequest)
    requires ToPublish(table, event).None?
    ensures Ranked(Database(users, GearLocker.Apply(table, event)), geo, request) == Ranked(Database(users, table), geo, request)
  {
    if event.Review? {
      assert GearLocker.Apply(table, event) == table;
    } else {
      GearMatching.NeutralKeepsRanking(users, table, event, geo, request);
    }
  }

  /** Every write of the locker but a saved review leaves all answers as they were. */
  lemma LosslessTranslate(geo: Geo, digest: MatchRequest -> string, ttl: nat, users: seq<User>, s: System, event: Event)
    requires Linked(users, s) && Lossless(event)
    ensures CacheCoherence.LosslessEvent(ServiceOf(geo, digest, ttl), s.world, Translate(users, s, event))
  {
    var svc := ServiceOf(geo, digest, ttl);
    if event.Write? && ToPublish(s.table, event.event).None? {
      var db := Database(users, GearLocker.Apply(s.table, event.event));
      forall request ensures svc.rank(Database(users, s.table), request) == svc.rank(db, request) {
        UnpublishedKeepsRanking(users, s.table, event.event, geo, request);
      }
    }
  }

  lemma LosslessAppend(svc: CacheCoherence.Service, db: Database, events: seq<CacheCoherence.Event>, last: CacheCoherence.Event)
    requires CacheCoherence.LosslessRun(svc, db, events)
    requires CacheCoherence.LosslessEvent(svc, CacheCoherence.Run(svc, db, events), last)
    ensures CacheCoherence.LosslessRun(svc, db, events + [last])
  {
    assert (events + [last])[..|events|] == events;
  }

  lemma {:induction false} LosslessTranslated(geo: Geo, digest: MatchRequest -> string, ttl: nat, db: Database, events: seq<Event>)
    requires forall e :: e in events ==> Lossless(e)
    ensures CacheCoherence.LosslessRun(ServiceOf(geo, digest, ttl), db, Translated(ServiceOf(geo, digest, ttl), db, events))
  {
    if events != [] {
      var svc := ServiceOf(geo, digest, ttl);
      var (earlier, last) := (events[..|events| - 1], events[|events| - 1]);
      assert last in events;
      LosslessTranslated(geo, digest, ttl, db, earlier);
      RunIsTranslated(svc, db, earlier);
      LosslessTranslate(geo, digest, ttl, db.users, Run(svc, db, earlier), last);
      LosslessAppend(svc, db, Translated(svc, db, earlier), Translate(db.users, Run(svc, db, earlier), last));
    }
  }

  /** For a fixed set of freelancers, and any interleaving of declarations, pins, reviews, publishes, bus and
      requests in which the bus loses nothing: once every review is counted, an entry that no bump overtook
      is the ranking of the gear table as it now is. */
  lemma ServedRankingIsLive(geo: Geo, digest: MatchRequest -> string, ttl: nat, db: Database, events: seq<Event>, request: MatchRequest)
    requires CacheCoherence.Apart(digest, Asked(events) + {request})
    requires forall e :: e in events ==> Lossless(e)
    requires CacheCoherence.OnTheWay(Run(ServiceOf(geo, digest, ttl), db, events).world) == 0
    requires var w := Run(ServiceOf(geo, digest, ttl), db, events).world;
      var key := Key(digest, w.bus.version, request);
      key in w.cache ==> !CacheCoherence.Overtaken(w.cache[key].value)
    ensures var s := Run(ServiceOf(geo, digest, ttl), db, events);
      var found := FindCached(digest, CacheOf(s.world), request);
      found.None? || found.value == Ranked(Database(db.users, s.table), geo, request)
  {
    var svc := ServiceOf(geo, digest, ttl);
    RunIsTranslated(svc, db, events);
    LosslessTranslated(geo, digest, ttl, db, events);
    TranslatedAsks(svc, db, events);
    ServedRankingIsCurrent(geo, digest, ttl, db, Translated(svc, db, events), request);
  }

  // ----- Every review can come to count -----

  lemma RunAppend(svc: CacheCoherence.Service, db: Database, events: seq<Event>, event: Event)
    ensures Run(svc, db, events + [event]) == Step(svc, db.users, Run(svc, db, events), event)
  {
    assert (events + [event])[..|events|] == events;
  }

  lemma OnePublish(svc: CacheCoherence.Service, users: seq<User>, s: System)
    requires s.world.snapshots != [] && s.backlog != []
    ensures var s' := Step(svc, users, s, Publish(0, Answered));
      |s'.backlog| == |s.backlog| - 1 && s'.table == s.table
  {
  }

  predicate AllLossless(events: seq<Event>) {
    forall e :: e in events ==> Lossless(e)
  }

  lemma LosslessConcat(first: seq<Event>, second: seq<Event>)
    requires AllLossless(first) && AllLossless(second)
    ensures AllLossless(first + second)
  {
  }

  /** The backend publishes its whole backlog. */
  lemma {:induction false} CanPublishAll(svc: CacheCoherence.Service, db: Database, events: seq<Event>) returns (more: seq<Event>)
    ensures AllLossless(more)
    ensures Run(svc, db, events + more).backlog == [] && Run(svc, db, events + more).table == Run(svc, db, events).table
    decreases |Run(svc, db, events).backlog|
  {
    if Run(svc, db, events).backlog == [] {
      more := [];
      assert events + more == events;
    } else {
      RunAppend(svc, db, events, Publish(0, Answered));
      OnePublish(svc, db.users, Run(svc, db, events));
      var rest := CanPublishAll(svc, db, events + [Publish(0, Answered)]);
      more := [Publish(0, Answered)] + rest;
      LosslessConcat([Publish(0, Answered)], rest);
      ConcatIsAssociative(events, [Publish(0, Answered)], rest);
    }
  }

  function OnBus(steps: seq<EventBus.BusEvent>): seq<Event> {
    seq(|steps|, i requires 0 <= i < |steps| => Other(CacheCoherence.OnBus(steps[i])))
  }

  lemma {:induction false} BusRuns(svc: CacheCoherence.Service, db: Database, events: seq<Event>, steps: seq<EventBus.BusEvent>)
    ensures var (s, s') := (Run(svc, db, events), Run(svc, db, events + OnBus(steps)));
      s'.world == s.world.(bus := EventBus.Run(s.world.bus, steps)) && s'.backlog == s.backlog && s'.table == s.table
  {
    if steps == [] {
      assert events + OnBus(steps) == events;
    } else {
      var (earlier, last) := (steps[..|steps| - 1], steps[|steps| - 1]);
      BusRuns(svc, db, events, earlier);
      RunAppend(svc, db, events + OnBus(earlier), Other(CacheCoherence.OnBus(last)));
      assert events + OnBus(steps) == events + OnBus(earlier) + [Other(CacheCoherence.OnBus(last))];
    }
  }

  lemma BusIsConserved(geo: Geo, digest: MatchRequest -> string, ttl: nat, db: Database, events: seq<Event>)
    requires forall e :: e in events ==> Lossless(e)
    ensures CacheCoherence.Counted(Run(ServiceOf(geo, digest, ttl), db, events).world)
  {
    var svc := ServiceOf(geo, digest, ttl);
    RunIsTranslated(svc, db, events);
    LosslessTranslated(geo, digest, ttl, db, events);
    CacheCoherence.LosslessRunIsBalanced(svc, db, Translated(svc, db, events));
  }

  lemma DrainingIsLossless(steps: seq<EventBus.BusEvent>)
    requires forall e :: e in steps ==> ConsumerProgress.Draining(e)
    ensures AllLossless(OnBus(steps))
  {
    forall e | e in OnBus(steps) ensures Lossless(e) {
      var i :| 0 <= i < |steps| && OnBus(steps)[i] == e;
      assert steps[i] in steps;
    }
  }

  /** With nothing to publish and nothing in flight, every review is in the version. */
  lemma AllCounted(geo: Geo, digest: MatchRequest -> string, ttl: nat, db: Database, events: seq<Event>)
    requires forall e :: e in events ==> Lossless(e)
    requires var s := Run(ServiceOf(geo, digest, ttl), db, events); s.backlog == [] && EventBus.InFlight(s.world.bus) == 0
    ensures var w := Run(ServiceOf(geo, digest, ttl), db, events).world;
      CacheCoherence.OnTheWay(w) == 0 && w.bus.version == CacheCoherence.Reviews(w)
  {
    BusIsConserved(geo, digest, ttl, db, events);
    RunIsTranslated(ServiceOf(geo, digest, ttl), db, events);
  }

  /** With nothing left to publish, the bus can be drained. */
  lemma CanDrainBus(geo: Geo, digest: MatchRequest -> string, ttl: nat, db: Database, events: seq<Event>)
    returns (more: seq<Event>)
    requires AllLossless(events) && Run(ServiceOf(geo, digest, ttl), db, events).backlog == []
    ensures AllLossless(more)
    ensures var (s, s') := (Run(ServiceOf(geo, digest, ttl), db, events), Run(ServiceOf(geo, digest, ttl), db, events + more));
      && s'.table == s.table && s'.backlog == [] && CacheCoherence.OnTheWay(s'.world) == 0
      && s'.world.bus.version == CacheCoherence.Reviews(s'.world)
  {
    var svc := ServiceOf(geo, digest, ttl);
    BusIsConserved(geo, digest, ttl, db, events);
    var steps := ConsumerProgress.CanDrain(Run(svc, db, events).world.bus);
    BusRuns(svc, db, events, steps);
    more := OnBus(steps);
    DrainingIsLossless(steps);
    LosslessConcat(events, more);
    AllCounted(geo, digest, ttl, db, events + more);
  }

  /** Wherever a lossless run stands, publishing and consuming bring every saved review into the version, and
      leave the table as it is: the coherence that ServedRankingIsLive promises is always within reach. */
  lemma EveryReviewCanBeCounted(geo: Geo, digest: MatchRequest -> string, ttl: nat, db: Database, events: seq<Event>)
    returns (more: seq<Event>)
    requires AllLossless(events)
    ensures AllLossless(more)
    ensures var (s, s') := (Run(ServiceOf(geo, digest, ttl), db, events), Run(ServiceOf(geo, digest, ttl), db, events + more));
      && s'.table == s.table && s'.backlog == [] && CacheCoherence.OnTheWay(s'.world) == 0
      && s'.world.bus.version == CacheCoherence.Reviews(s'.world)
  {
    var publishes := CanPublishAll(ServiceOf(geo, digest, ttl), db, events);
    LosslessConcat(events, publishes);
    var steps := CanDrainBus(geo, digest, ttl, db, events + publishes);
    LosslessConcat(publishes, steps);
    ConcatIsAssociative(events, publishes, steps);
    more := publishes + steps;
  }
}
