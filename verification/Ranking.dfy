/** The ranked answer to one request, without its cache (matching-service/app/routers/matching.py). */
module Ranking {
  import opened Basics
  import opened Entities
  import opened Scoring
  import opened Sorting
  import opened FreelancerRepo

  datatype MatchResult = MatchResult(freelanceId: Uuid, score: real, distanceKm: Distance)

  /** The sort key (-score, distance_km): best score first, then the nearest. */
  predicate RankedBefore(a: MatchResult, b: MatchResult) {
    a.score > b.score || (a.score == b.score && a.distanceKm <= b.distanceKm)
  }

  predicate StrictlyAhead(a: MatchResult, b: MatchResult) {
    RankedBefore(a, b) && !RankedBefore(b, a)
  }

  function ResultOf(profile: FreelancerProfile, request: MatchRequest): MatchResult {
    MatchResult(profile.freelanceId, RoundScore(CompositeScore(profile, request)), RoundDistance(profile.distanceKm))
  }

  /** Candidates whose unrounded score is positive, in candidate order. */
  function Scored(profiles: seq<FreelancerProfile>, request: MatchRequest): seq<MatchResult> {
    if profiles == [] then []
    else
      var last := profiles[|profiles| - 1];
      Scored(profiles[..|profiles| - 1], request)
      + if CompositeScore(last, request) > 0.0 then [ResultOf(last, request)] else []
  }

  /** The answer the service owes for a request, read straight from the tables. */
  function Ranked(db: Database, geo: Geo, request: MatchRequest): seq<MatchResult> {
    Sort(Scored(Candidates(InRadius(db.users, geo, request), db.gear), request), RankedBefore)
  }

  /** The part of the request handler between the two cache calls. */
  method RankCandidates(rows: seq<Row>, request: MatchRequest) returns (results: seq<MatchResult>)
    ensures results == Sort(Scored(Grouped(rows), request), RankedBefore)
  {
    var candidates := GetCandidates(rows);
    results := [];
    for i := 0 to |candidates|
      invariant results == Scored(candidates[..i], request)
    {
      assert candidates[..i + 1][..i] == candidates[..i];
      var score := ComputeCompositeScore(candidates[i], request);
      if score > 0.0 {
        results := results + [MatchResult(candidates[i].freelanceId, RoundScore(score),
                                          RoundDistance(candidates[i].distanceKm))];
      }
    }
    assert candidates[..|candidates|] == candidates;
    results := Sort(results, RankedBefore);
  }

  // ----- The handler's answer is the reference answer -----

  lemma {:induction false} ScoredSameProfiles(ps: seq<FreelancerProfile>, qs: seq<FreelancerProfile>, request: MatchRequest)
    requires SameProfiles(ps, qs)
    ensures Scored(ps, request) == Scored(qs, request)
  {
    if ps != [] {
      var n := |ps| - 1;
      assert SameProfile(ps[n], qs[n]);
      ScoreIgnoresGearOrder(ps[n], qs[n], request);
      ScoredSameProfiles(ps[..n], qs[..n], request);
    }
  }

  lemma RankedBeforeIsTotalPreorder()
    ensures TotalPreorder(RankedBefore)
  {
  }

  /** For every answer the database may give, in any order of each freelancer's rows, the handler's
      list is the reference answer. */
  lemma HandlerComputesRanked(rows: seq<Row>, db: Database, geo: Geo, request: MatchRequest)
    requires AscendingUsers(db.users)
    requires IsOuterJoin(rows, InRadius(db.users, geo, request), db.gear)
    ensures Sort(Scored(Grouped(rows), request), RankedBefore) == Ranked(db, geo, request)
  {
    var located := InRadius(db.users, geo, request);
    InRadiusAscending(db.users, geo, request);
    GroupingRefinesCandidates(rows, located, db.gear);
    ScoredSameProfiles(Grouped(rows), Candidates(located, db.gear), request);
  }

  lemma {:induction false} ScoredElements(profiles: seq<FreelancerProfile>, request: MatchRequest, r: MatchResult)
    ensures r in Scored(profiles, request)
       <==> exists p :: p in profiles && CompositeScore(p, request) > 0.0 && r == ResultOf(p, request)
  {
    if profiles != [] {
      var n := |profiles| - 1;
      ScoredElements(profiles[..n], request, r);
      assert profiles == profiles[..n] + [profiles[n]];
      if exists p :: p in profiles && CompositeScore(p, request) > 0.0 && r == ResultOf(p, request) {
        var p :| p in profiles && CompositeScore(p, request) > 0.0 && r == ResultOf(p, request);
        assert p in profiles[..n] || p == profiles[n];
      }
    }
  }

  /** The answer holds exactly the freelancers in the radius with a positive score, best first, every
      score within the response schema. */
  lemma RankedIsSortedSelection(db: Database, geo: Geo, request: MatchRequest)
    ensures SortedBy(Ranked(db, geo, request), RankedBefore)
    ensures var ranked := Ranked(db, geo, request);
      forall i, j :: 0 <= i < j < |ranked| ==>
        ranked[i].score > ranked[j].score || (ranked[i].score == ranked[j].score && ranked[i].distanceKm <= ranked[j].distanceKm)
    ensures multiset(Ranked(db, geo, request))
         == multiset(Scored(Candidates(InRadius(db.users, geo, request), db.gear), request))
    ensures var candidates := Candidates(InRadius(db.users, geo, request), db.gear);
      forall r :: r in Ranked(db, geo, request) <==>
        exists p :: p in candidates && CompositeScore(p, request) > 0.0 && r == ResultOf(p, request)
    ensures forall r :: r in Ranked(db, geo, request) ==> 0.0 <= r.score <= 1.0
  {
    var candidates := Candidates(InRadius(db.users, geo, request), db.gear);
    var scored := Scored(candidates, request);
    RankedBeforeIsTotalPreorder();
    SortIsStableSort(scored, RankedBefore);
    forall r
      ensures r in Ranked(db, geo, request) <==>
        exists p :: p in candidates && CompositeScore(p, request) > 0.0 && r == ResultOf(p, request)
      ensures r in Ranked(db, geo, request) ==> 0.0 <= r.score <= 1.0
    {
      assert r in Ranked(db, geo, request) <==> r in multiset(scored);
      ScoredElements(candidates, request, r);
      if r in scored {
        var p :| p in candidates && CompositeScore(p, request) > 0.0 && r == ResultOf(p, request);
        CompositeScoreInUnit(p, request);
      }
    }
  }

  // ----- One more validated item never costs a place -----

  function AheadOf(results: seq<MatchResult>, r: MatchResult): nat {
    if results == [] then 0 else (if StrictlyAhead(results[0], r) then 1 else 0) + AheadOf(results[1..], r)
  }

  lemma {:induction false} AheadOfSplit(xs: seq<MatchResult>, ys: seq<MatchResult>, r: MatchResult)
    ensures AheadOf(xs + ys, r) == AheadOf(xs, r) + AheadOf(ys, r)
  {
    if xs == [] {
      assert xs + ys == ys;
    } else {
      assert (xs + ys)[1..] == xs[1..] + ys;
      AheadOfSplit(xs[1..], ys, r);
    }
  }

  lemma {:induction false} AheadOfInsert(x: MatchResult, xs: seq<MatchResult>, r: MatchResult)
    ensures AheadOf(Insert(x, xs, RankedBefore), r) == AheadOf([x], r) + AheadOf(xs, r)
  {
    if xs == [] || RankedBefore(x, xs[0]) {
      AheadOfSplit([x], xs, r);
    } else {
      var rest := Insert(x, xs[1..], RankedBefore);
      AheadOfInsert(x, xs[1..], r);
      assert ([xs[0]] + rest)[1..] == rest;
    }
  }

  lemma {:induction false} AheadOfSort(xs: seq<MatchResult>, r: MatchResult)
    ensures AheadOf(Sort(xs, RankedBefore), r) == AheadOf(xs, r)
  {
    if xs != [] {
      AheadOfSort(xs[1..], r);
      AheadOfInsert(xs[0], Sort(xs[1..], RankedBefore), r);
    }
  }

  lemma {:induction false} ScoredSplit(ps: seq<FreelancerProfile>, qs: seq<FreelancerProfile>, request: MatchRequest)
    ensures Scored(ps + qs, request) == Scored(ps, request) + Scored(qs, request)
  {
    if qs == [] {
      assert ps + qs == ps;
    } else {
      var n := |qs| - 1;
      assert (ps + qs)[..|ps| + n] == ps + qs[..n];
      ScoredSplit(ps, qs[..n], request);
    }
  }

  lemma {:induction false} AheadOfBetter(results: seq<MatchResult>, worse: MatchResult, better: MatchResult)
    requires RankedBefore(better, worse)
    ensures AheadOf(results, better) <= AheadOf(results, worse)
  {
    if results != [] {
      AheadOfBetter(results[1..], worse, better);
    }
  }

  lemma AheadWithOneImproved(ps: seq<FreelancerProfile>, k: nat, better: FreelancerProfile, request: MatchRequest)
    requires k < |ps|
    requires RankedBefore(ResultOf(better, request), ResultOf(ps[k], request))
    ensures AheadOf(Scored(ps[k := better], request), ResultOf(better, request))
         <= AheadOf(Scored(ps, request), ResultOf(ps[k], request))
  {
    var front, back := ps[..k], ps[k + 1..];
    var worse, good := ResultOf(ps[k], request), ResultOf(better, request);
    assert ps == front + ([ps[k]] + back);
    assert ps[k := better] == front + ([better] + back);
    ScoredSplit(front, [ps[k]] + back, request);
    ScoredSplit([ps[k]], back, request);
    ScoredSplit(front, [better] + back, request);
    ScoredSplit([better], back, request);
    AheadOfSplit(Scored(front, request), Scored([ps[k]] + back, request), worse);
    AheadOfSplit(Scored([ps[k]], request), Scored(back, request), worse);
    AheadOfSplit(Scored(front, request), Scored([better] + back, request), good);
    AheadOfSplit(Scored([better], request), Scored(back, request), good);
    AheadOfBetter(Scored(front, request), worse, good);
    AheadOfBetter(Scored(back, request), worse, good);
  }

  lemma ImprovedCandidates(located: seq<Located>, gear: seq<Gear>, i: nat, k: nat, request: MatchRequest)
    requires AscendingIds(located)
    requires i < |gear| && gear[i].status == Pending
    requires k < |located| && located[k].id == gear[i].freelanceId
    ensures var gear' := gear[i := gear[i].(status := Validated)];
      var better := ProfileOf(located[k], gear');
      && Candidates(located, gear') == Candidates(located, gear)[k := better]
      && ResultOf(ProfileOf(located[k], gear), request).score <= ResultOf(better, request).score
      && RankedBefore(ResultOf(better, request), ResultOf(ProfileOf(located[k], gear), request))
  {
    var gear' := gear[i := gear[i].(status := Validated)];
    ValidatingAddsCategory(gear, i, located[k].id);
    MoreGearNeverScoresLess(ProfileOf(located[k], gear), ProfileOf(located[k], gear'), gear[i].category, request);
    forall j | 0 <= j < |located| && j != k ensures ProfileOf(located[j], gear') == ProfileOf(located[j], gear) {
      ValidatingAddsCategory(gear, i, located[j].id);
    }
  }

  /** Validating one pending item of a freelancer in the radius: the freelancer's score does not drop
      and no more results than before stand strictly ahead of it in the answer. */
  lemma ValidationNeverCostsAPlace(db: Database, geo: Geo, request: MatchRequest, i: nat, k: nat)
    requires i < |db.gear| && db.gear[i].status == Pending
    requires AscendingUsers(db.users)
    requires k < |InRadius(db.users, geo, request)|
    requires InRadius(db.users, geo, request)[k].id == db.gear[i].freelanceId
    ensures var located := InRadius(db.users, geo, request);
      var db' := db.(gear := db.gear[i := db.gear[i].(status := Validated)]);
      var before, after := ResultOf(ProfileOf(located[k], db.gear), request), ResultOf(ProfileOf(located[k], db'.gear), request);
      && before.score <= after.score
      && AheadOf(Ranked(db', geo, request), after) <= AheadOf(Ranked(db, geo, request), before)
  {
    var located := InRadius(db.users, geo, request);
    InRadiusAscending(db.users, geo, request);
    var gear' := db.gear[i := db.gear[i].(status := Validated)];
    var ps, ps' := Candidates(located, db.gear), Candidates(located, gear');
    ImprovedCandidates(located, db.gear, i, k, request);
    AheadWithOneImproved(ps, k, ps'[k], request);
    AheadOfSort(Scored(ps, request), ResultOf(ps[k], request));
    AheadOfSort(Scored(ps', request), ResultOf(ps'[k], request));
  }

  lemma CandidateOf(located: seq<Located>, gear: seq<Gear>, who: Located)
    requires who in located
    ensures ProfileOf(who, gear) in Candidates(located, gear)
  {
    var k :| 0 <= k < |located| && located[k] == who;
    assert Candidates(located, gear)[k] == ProfileOf(who, gear);
  }

  /** Of two freelancers in the radius with the same validated items, the nearer one has no lower score and,
      at the same score, no greater distance; so the farther one never stands strictly ahead. And if the
      farther one is in the answer, so is the nearer. */
  lemma NearerComesFirst(db: Database, geo: Geo, request: MatchRequest, near: Located, far: Located)
    requires near in InRadius(db.users, geo, request) && far in InRadius(db.users, geo, request)
    requires multiset(ValidatedCategories(db.gear, near.id)) == multiset(ValidatedCategories(db.gear, far.id))
    requires near.distanceKm <= far.distanceKm
    ensures var (a, b) := (ResultOf(ProfileOf(near, db.gear), request), ResultOf(ProfileOf(far, db.gear), request));
      && a.score >= b.score && a.distanceKm <= b.distanceKm && !StrictlyAhead(b, a)
      && (CompositeScore(ProfileOf(far, db.gear), request) > 0.0 ==> a in Ranked(db, geo, request) && b in Ranked(db, geo, request))
  {
    var (p, q) := (ProfileOf(near, db.gear), ProfileOf(far, db.gear));
    NearerNeverScoresLess(p, q, request);
    RoundDistanceIsNearest(near.distanceKm, far.distanceKm);
    var candidates := Candidates(InRadius(db.users, geo, request), db.gear);
    CandidateOf(InRadius(db.users, geo, request), db.gear, near);
    CandidateOf(InRadius(db.users, geo, request), db.gear, far);
    assert p in candidates && q in candidates;
    RankedIsSortedSelection(db, geo, request);
  }
}
