/** The /match handler and its cache in their imperative form
    (matching-service/app/services/match_cache.py, matching-service/app/routers/matching.py), tied to the
    request steps of CacheCoherence when nothing interleaves. */
module MatchService {
  import opened Basics
  import opened Entities
  import opened Scoring
  import opened Sorting
  import opened FreelancerRepo
  import opened Ranking
  import opened CacheKey
  import opened CacheCoherence

  /** What the handler can see of Redis: the version (0 when unset), the payloads, the clock. */
  datatype CacheState = CacheState(version: nat, entries: map<string, Timed<seq<MatchResult>>>, now: nat)

  function Key(digest: MatchRequest -> string, version: nat, request: MatchRequest): string {
    BuildCacheKey(version, digest(request))
  }

  function FindCached(digest: MatchRequest -> string, cache: CacheState, request: MatchRequest): Option<seq<MatchResult>> {
    var key := Key(digest, cache.version, request);
    if key in cache.entries && cache.entries[key].Live(cache.now) then Some(cache.entries[key].value) else None
  }

  function Stored(digest: MatchRequest -> string, cache: CacheState, request: MatchRequest,
                  results: seq<MatchResult>, ttl: nat): CacheState {
    cache.(entries := cache.entries[Key(digest, cache.version, request) := Timed(results, cache.now + ttl)])
  }

  /** A stored answer is the one found, for that request and version and for less than the TTL; every
      other request, and the same request after a bump, finds what it would have found anyway. */
  lemma StoredIsFound(digest: MatchRequest -> string, cache: CacheState, request: MatchRequest,
                      results: seq<MatchResult>, ttl: nat, seconds: nat, bumps: nat, asked: MatchRequest)
    requires digest(asked) == digest(request) ==> asked == request
    ensures var after := Stored(digest, cache, request, results, ttl);
      var later := after.(now := cache.now + seconds, version := cache.version + bumps);
      var untouched := cache.(now := cache.now + seconds, version := cache.version + bumps);
      if asked == request && bumps == 0
      then FindCached(digest, later, asked) == if seconds < ttl then Some(results) else None
      else FindCached(digest, later, asked) == FindCached(digest, untouched, asked)
  {
    if Key(digest, cache.version + bumps, asked) == Key(digest, cache.version, request) {
      CacheKeyIsInjective(cache.version + bumps, digest(asked), cache.version, digest(request));
    }
  }

  class MatchRedis {
    var version: Option<nat>
    var entries: map<string, Timed<seq<MatchResult>>>
    var now: nat

    constructor ()
      ensures View() == CacheState(0, map[], 0)
    {
      version, entries, now := None, map[], 0;
    }

    function View(): CacheState
      reads this
    {
      CacheState(if version.Some? then version.value else 0, entries, now)
    }
  }

  class MatchHandler {
    const redis: MatchRedis
    const digest: MatchRequest -> string
    const ttl: nat

    constructor (redis: MatchRedis, digest: MatchRequest -> string, ttl: nat)
      ensures this.redis == redis && this.digest == digest && this.ttl == ttl
    {
      this.redis, this.digest, this.ttl := redis, digest, ttl;
    }

    method CurrentVersion() returns (version: nat)
      ensures version == redis.View().version
    {
      version := if redis.version.Some? then redis.version.value else 0;
    }

    /** A miss, and a Redis fault at either of its two commands, are both None. */
    method GetCached(request: MatchRequest, versionReply: Reply, entryReply: Reply)
      returns (results: Option<seq<MatchResult>>)
      ensures results == if versionReply.Raised() || entryReply.Raised() then None
                         else FindCached(digest, redis.View(), request)
    {
      if versionReply.Raised() {
        return None;
      }
      var version := CurrentVersion();
      var key := BuildCacheKey(version, digest(request));
      if entryReply.Raised() || key !in redis.entries || !redis.entries[key].Live(redis.now) {
        return None;
      }
      results := Some(redis.entries[key].value);
    }

    /** Silent when Redis is not there. */
    method SetCached(request: MatchRequest, results: seq<MatchResult>, versionReply: Reply, writeReply: Reply)
      modifies redis`entries
      ensures redis.View() == if versionReply.Raised() || !writeReply.Ran() then old(redis.View())
                              else Stored(digest, old(redis.View()), request, results, ttl)
    {
      if versionReply.Raised() {
        return;
      }
      var version := CurrentVersion();
      if writeReply.Ran() {
        redis.entries := redis.entries[BuildCacheKey(version, digest(request)) := Timed(results, redis.now + ttl)];
      }
    }

    /** The whole handler. On a hit the stored answer comes back untouched; otherwise the answer is the
        ranking of the database, whatever order its rows came in, and it is stored unless Redis fails. */
    method Match(request: MatchRequest, rows: seq<Row>, ghost db: Database, geo: Geo,
                 getReplies: (Reply, Reply), setReplies: (Reply, Reply))
      returns (results: seq<MatchResult>)
      requires AscendingUsers(db.users)
      requires IsOuterJoin(rows, InRadius(db.users, geo, request), db.gear)
      modifies redis`entries
      ensures var found := FindCached(digest, old(redis.View()), request);
        if !getReplies.0.Raised() && !getReplies.1.Raised() && found.Some?
        then results == found.value && redis.View() == old(redis.View())
        else
          && results == Ranked(db, geo, request)
          && redis.View() == if setReplies.0.Raised() || !setReplies.1.Ran() then old(redis.View())
                             else Stored(digest, old(redis.View()), request, results, ttl)
    {
      var cached := GetCached(request, getReplies.0, getReplies.1);
      if cached.Some? {
        return cached.value;
      }
      results := RankCandidates(rows, request);
      HandlerComputesRanked(rows, db, geo, request);
      SetCached(request, results, setReplies.0, setReplies.1);
    }
  }

  // ----- The handler is the request steps, run without interruption -----

  function Payloads(cache: map<string, Timed<Cached>>): map<string, Timed<seq<MatchResult>>> {
    map key | key in cache :: Timed(cache[key].value.computation.results, cache[key].expiresAt)
  }

  function CacheOf(w: World): CacheState {
    CacheState(w.bus.version, Payloads(w.cache), w.now)
  }

  function LookupEvents(id: nat, request: MatchRequest, getReplies: (Reply, Reply)): seq<Event> {
    [Arrive(id, request), ReadVersion(id, getReplies.0), ReadEntry(id, getReplies.1)]
  }

  function RankEvents(id: nat, setReplies: (Reply, Reply)): seq<Event> {
    [ReadCandidates(id), RereadVersion(id, setReplies.0), WriteEntry(id, setReplies.1)]
  }

  function HandlerEvents(id: nat, request: MatchRequest, getReplies: (Reply, Reply), setReplies: (Reply, Reply)): seq<Event> {
    LookupEvents(id, request, getReplies) + RankEvents(id, setReplies)
  }

  function ServiceOf(geo: Geo, digest: MatchRequest -> string, ttl: nat): Service {
    Service((db, request) => Ranked(db, geo, request), digest, ttl)
  }

  lemma {:induction false} RunFromSplit(svc: Service, w: World, first: seq<Event>, second: seq<Event>)
    requires w.snapshots != []
    ensures RunFrom(svc, w, first + second) == RunFrom(svc, RunFrom(svc, w, first), second)
    decreases |first|
  {
    if first == [] {
      assert first + second == second;
    } else {
      assert (first + second)[1..] == first[1..] + second;
      RunFromSplit(svc, CacheCoherence.Step(svc, w, first[0]), first[1..], second);
    }
  }

  lemma AfterHit(svc: Service, w: World, id: nat, setReplies: (Reply, Reply))
    requires w.snapshots != []
    requires id in w.requests && w.requests[id].Replied?
    ensures RunFrom(svc, w, RankEvents(id, setReplies)) == w
  {
    ThreeSteps(svc, w, ReadCandidates(id), RereadVersion(id, setReplies.0), WriteEntry(id, setReplies.1));
  }

  lemma AfterLookup(svc: Service, w: World, id: nat, request: MatchRequest, getReplies: (Reply, Reply)) returns (w': World)
    requires w.snapshots != [] && id !in w.requests
    ensures w' == RunFrom(svc, w, LookupEvents(id, request, getReplies))
    ensures w'.snapshots == w.snapshots && w'.bus == w.bus && w'.cache == w.cache && w'.now == w.now
    ensures id in w'.requests
    ensures var found := FindCached(svc.digest, CacheOf(w), request);
      if !getReplies.0.Raised() && !getReplies.1.Raised() && found.Some?
      then w'.requests[id].Replied? && w'.requests[id].results == found.value
      else w'.requests[id].Missed? && w'.requests[id].request == request
  {
    var w1 := CacheCoherence.Step(svc, w, Arrive(id, request));
    var w2 := CacheCoherence.Step(svc, w1, ReadVersion(id, getReplies.0));
    w' := CacheCoherence.Step(svc, w2, ReadEntry(id, getReplies.1));
    ThreeSteps(svc, w, Arrive(id, request), ReadVersion(id, getReplies.0), ReadEntry(id, getReplies.1));
    assert w1.requests[id] == Arrived(request, w.now);
    var key := Key(svc.digest, w.bus.version, request);
    assert key in w.cache <==> key in CacheOf(w).entries;
  }

  lemma AfterRanking(svc: Service, w: World, id: nat, request: MatchRequest, setReplies: (Reply, Reply)) returns (w': World)
    requires w.snapshots != []
    requires id in w.requests && w.requests[id].Missed? && w.requests[id].request == request
    ensures w' == RunFrom(svc, w, RankEvents(id, setReplies))
    ensures id in w'.requests && w'.requests[id].Replied?
    ensures w'.requests[id].results == svc.rank(CurrentDb(w), request)
    ensures CacheOf(w') == if setReplies.0.Raised() || !setReplies.1.Ran() then CacheOf(w)
                           else Stored(svc.digest, CacheOf(w), request, w'.requests[id].results, svc.ttl)
  {
    var w1 := CacheCoherence.Step(svc, w, ReadCandidates(id));
    var w2 := CacheCoherence.Step(svc, w1, RereadVersion(id, setReplies.0));
    w' := CacheCoherence.Step(svc, w2, WriteEntry(id, setReplies.1));
    ThreeSteps(svc, w, ReadCandidates(id), RereadVersion(id, setReplies.0), WriteEntry(id, setReplies.1));
    assert w1.requests[id].Computing? && w1.requests[id].computation.request == request;
    if !setReplies.0.Raised() && setReplies.1.Ran() {
      var key := Key(svc.digest, w.bus.version, request);
      assert w'.cache == w.cache[key := w'.cache[key]];
      assert Payloads(w'.cache) == Payloads(w.cache)[key := Timed(w'.requests[id].results, w.now + svc.ttl)];
    }
  }

  /** From `w` to `w'`, request `id` was answered, and the cache left, as the handler's contract says. */
  ghost predicate Handled(geo: Geo, digest: MatchRequest -> string, ttl: nat, w: World, w': World, id: nat, request: MatchRequest,
                          getReplies: (Reply, Reply), setReplies: (Reply, Reply))
    requires w.snapshots != []
  {
    var found := FindCached(digest, CacheOf(w), request);
    && id in w'.requests && w'.requests[id].Replied?
    && if !getReplies.0.Raised() && !getReplies.1.Raised() && found.Some?
       then w'.requests[id].results == found.value && CacheOf(w') == CacheOf(w)
       else
         && w'.requests[id].results == Ranked(CurrentDb(w), geo, request)
         && CacheOf(w') == if setReplies.0.Raised() || !setReplies.1.Ran() then CacheOf(w)
                           else Stored(digest, CacheOf(w), request, w'.requests[id].results, ttl)
  }

  lemma MissIsHandled(geo: Geo, digest: MatchRequest -> string, ttl: nat, w: World, w3: World, id: nat, request: MatchRequest,
                      getReplies: (Reply, Reply), setReplies: (Reply, Reply))
    requires w.snapshots != [] && CacheOf(w3) == CacheOf(w) && w3.snapshots == w.snapshots
    requires id in w3.requests && w3.requests[id].Missed? && w3.requests[id].request == request
    requires getReplies.0.Raised() || getReplies.1.Raised() || FindCached(digest, CacheOf(w), request).None?
    ensures Handled(geo, digest, ttl, w, RunFrom(ServiceOf(geo, digest, ttl), w3, RankEvents(id, setReplies)), id, request, getReplies, setReplies)
  {
    var svc := ServiceOf(geo, digest, ttl);
    var w6 := AfterRanking(svc, w3, id, request, setReplies);
    assert svc.rank(CurrentDb(w), request) == Ranked(CurrentDb(w), geo, request);
  }

  /** The six request steps in a row do what the handler's contract says: same answer, same cache. */
  lemma HandlerIsItsSteps(geo: Geo, digest: MatchRequest -> string, ttl: nat, w: World, id: nat, request: MatchRequest,
                          getReplies: (Reply, Reply), setReplies: (Reply, Reply))
    requires w.snapshots != [] && id !in w.requests
    ensures var w' := RunFrom(ServiceOf(geo, digest, ttl), w, HandlerEvents(id, request, getReplies, setReplies));
      Handled(geo, digest, ttl, w, w', id, request, getReplies, setReplies)
  {
    var svc := ServiceOf(geo, digest, ttl);
    RunFromSplit(svc, w, LookupEvents(id, request, getReplies), RankEvents(id, setReplies));
    var w3 := AfterLookup(svc, w, id, request, getReplies);
    assert CacheOf(w3) == CacheOf(w);
    if w3.requests[id].Missed? {
      MissIsHandled(geo, digest, ttl, w, w3, id, request, getReplies, setReplies);
    } else {
      AfterHit(svc, w3, id, setReplies);
    }
  }

  /** Coherence of the deployed service: in a lossless run, with no review on its way, an entry under the
      current version that no bump overtook holds the ranking of the tables as they now are. */
  lemma ServedRankingIsCurrent(geo: Geo, digest: MatchRequest -> string, ttl: nat, db: Database,
                               events: seq<Event>, request: MatchRequest)
    requires Apart(digest, Asked(events) + {request})
    requires LosslessRun(ServiceOf(geo, digest, ttl), db, events)
    requires OnTheWay(Run(ServiceOf(geo, digest, ttl), db, events)) == 0
    requires var w := Run(ServiceOf(geo, digest, ttl), db, events);
      var key := Key(digest, w.bus.version, request);
      key in w.cache ==> !Overtaken(w.cache[key].value)
    ensures var w := Run(ServiceOf(geo, digest, ttl), db, events);
      var found := FindCached(digest, CacheOf(w), request);
      found.None? || found.value == Ranked(CurrentDb(w), geo, request)
  {
    var svc := ServiceOf(geo, digest, ttl);
    var w := Run(svc, db, events);
    var key := Key(digest, w.bus.version, request);
    if key in w.cache {
      RunIsTruthful(svc, db, events, Asked(events) + {request});
      assert EntryIsTruthful(svc, w, key);
      var entry := w.cache[key].value;
      CacheKeyIsInjective(entry.version, digest(entry.computation.request), w.bus.version, digest(request));
      CoherentIffNotOvertaken(svc, db, events, key);
      assert svc.rank(CurrentDb(w), request) == Ranked(CurrentDb(w), geo, request);
    }
  }
}
