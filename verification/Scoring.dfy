/** The composite score of one freelancer for one request (matching-service/app/services/scoring.py). */
module Scoring {
  import opened Basics

  const CATEGORY_SKILL_MAP: map<string, set<string>> := map[
    "DRONE" := {"drone", "drone-dgac", "fpv", "pilote-drone", "telepilote", "uas"},
    "CAMERA_360" := {"360", "camera-360", "operateur-360", "360-video", "vr"},
    "ROBOTICS" := {"robotique", "robotics", "automation", "robot", "ros"},
    "SENSOR" := {"capteur", "sensor", "iot", "telemetrie", "lidar"},
    "OTHER" := {}
  ]

  const SKILLS_WEIGHT: real := 0.5
  const GEAR_WEIGHT: real := 0.3
  const LOCATION_WEIGHT: real := 0.2
  const GEAR_MAX_COUNT: nat := 5

  /** A distance, as PostGIS reports it: never negative. */
  type Distance = x: real | x >= 0.0

  /** A search radius: the request schema refuses zero and negative values. */
  type Radius = x: real | x > 0.0 witness 1.0

  datatype FreelancerProfile =
    FreelancerProfile(freelanceId: Uuid, gearCategories: seq<string>, distanceKm: Distance)

  datatype MatchRequest = MatchRequest(skills: seq<string>, location: (real, real), radiusKm: Radius)

  function LowerChar(c: char): char {
    if 'A' <= c <= 'Z' then (c as int + 32) as char else c
  }

  function Lower(s: string): string {
    seq(|s|, i requires 0 <= i < |s| => LowerChar(s[i]))
  }

  function SkillsOf(category: string): set<string> {
    if category in CATEGORY_SKILL_MAP then CATEGORY_SKILL_MAP[category] else {}
  }

  /** Every skill some category of the list stands for. */
  function InferredSkills(categories: seq<string>): set<string> {
    set c, s | c in categories && s in SkillsOf(c) :: s
  }

  function RequiredSkills(skills: seq<string>): set<string> {
    set s | s in skills :: Lower(s)
  }

  lemma RequiredSkillsNonEmpty(skills: seq<string>)
    requires skills != []
    ensures |RequiredSkills(skills)| > 0
  {
    assert Lower(skills[0]) in RequiredSkills(skills);
  }

  /** Recall: the share of the required skills that the categories stand for. */
  function SkillRecall(skills: seq<string>, categories: seq<string>): real {
    if skills == [] then 1.0
    else
      RequiredSkillsNonEmpty(skills);
      |RequiredSkills(skills) * InferredSkills(categories)| as real / |RequiredSkills(skills)| as real
  }

  lemma InferredSkillsGrow(categories: seq<string>, category: string)
    ensures InferredSkills(categories + [category]) == InferredSkills(categories) + SkillsOf(category)
  {
    var more := categories + [category];
    assert forall c :: c in more <==> c in categories || c == category;
    assert more[|categories|] == category;
  }

  method ScoreSkills(skills: seq<string>, categories: seq<string>) returns (score: real)
    ensures score == SkillRecall(skills, categories)
  {
    if skills == [] {
      return 1.0;
    }
    var inferred: set<string> := {};
    for i := 0 to |categories|
      invariant inferred == InferredSkills(categories[..i])
    {
      InferredSkillsGrow(categories[..i], categories[i]);
      assert categories[..i + 1] == categories[..i] + [categories[i]];
      inferred := inferred + SkillsOf(categories[i]);
    }
    assert categories[..|categories|] == categories;
    var required := set s | s in skills :: Lower(s);
    var matched := required * inferred;
    RequiredSkillsNonEmpty(skills);
    score := |matched| as real / |required| as real;
  }

  function ScoreGear(gearCount: nat): real {
    var share := gearCount as real / GEAR_MAX_COUNT as real;
    if share < 1.0 then share else 1.0
  }

  function ScoreLocation(distanceKm: Distance, radiusKm: Radius): real {
    var nearness := 1.0 - distanceKm / radiusKm;
    if nearness > 0.0 then nearness else 0.0
  }

  function CompositeScore(profile: FreelancerProfile, request: MatchRequest): real {
    SKILLS_WEIGHT * SkillRecall(request.skills, profile.gearCategories)
    + GEAR_WEIGHT * ScoreGear(|profile.gearCategories|)
    + LOCATION_WEIGHT * ScoreLocation(profile.distanceKm, request.radiusKm)
  }

  method ComputeCompositeScore(profile: FreelancerProfile, request: MatchRequest) returns (score: real)
    ensures score == CompositeScore(profile, request)
  {
    var s := ScoreSkills(request.skills, profile.gearCategories);
    var g := ScoreGear(|profile.gearCategories|);
    var loc := ScoreLocation(profile.distanceKm, request.radiusKm);
    score := SKILLS_WEIGHT * s + GEAR_WEIGHT * g + LOCATION_WEIGHT * loc;
  }

  // ----- Rounding -----

  /** Python's rounding rule, over the reals: to the nearest integer, halves to the even one. */
  function RoundHalfEven(x: real): int {
    var floor := x.Floor;
    var rest := x - floor as real;
    if rest < 0.5 then floor
    else if rest > 0.5 then floor + 1
    else if floor % 2 == 0 then floor else floor + 1
  }

  /** `round(score, 4)` */
  function RoundScore(x: real): real {
    RoundHalfEven(x * 10000.0) as real / 10000.0
  }

  lemma RoundHalfEvenIsMonotone(x: real, y: real)
    requires x <= y
    ensures RoundHalfEven(x) <= RoundHalfEven(y)
  {
    if x.Floor < y.Floor {
      assert RoundHalfEven(x) <= x.Floor + 1 <= y.Floor <= RoundHalfEven(y);
    } else {
      assert x.Floor == y.Floor;
    }
  }

  /** `round(distance_km, 2)` */
  function RoundDistance(x: Distance): Distance {
    RoundHalfEvenIsMonotone(0.0, x * 100.0);
    RoundHalfEven(x * 100.0) as real / 100.0
  }

  /** Rounding a score keeps the order, and leaves 0 and 1 where they are. */
  lemma RoundScoreIsMonotone(x: real, y: real)
    requires x <= y
    ensures RoundScore(x) <= RoundScore(y)
    ensures RoundScore(0.0) == 0.0 && RoundScore(1.0) == 1.0
  {
    RoundHalfEvenIsMonotone(x * 10000.0, y * 10000.0);
    assert (10000.0).Floor == 10000;
  }

  // ----- Bounds and monotonicity -----

  lemma DivisionIsMonotone(a: real, b: real, d: real)
    requires d > 0.0 && a <= b
    ensures a / d <= b / d
  {
  }

  lemma RatioInUnit(part: nat, whole: nat)
    requires part <= whole && whole > 0
    ensures 0.0 <= part as real / whole as real <= 1.0
  {
    DivisionIsMonotone(0.0, part as real, whole as real);
    DivisionIsMonotone(part as real, whole as real, whole as real);
  }

  lemma SkillRecallInUnit(skills: seq<string>, categories: seq<string>)
    ensures 0.0 <= SkillRecall(skills, categories) <= 1.0
  {
    if skills != [] {
      var required := RequiredSkills(skills);
      RequiredSkillsNonEmpty(skills);
      SubsetSize(required * InferredSkills(categories), required);
      RatioInUnit(|required * InferredSkills(categories)|, |required|);
    }
  }

  lemma LocationInUnit(distanceKm: Distance, radiusKm: Radius)
    ensures 0.0 <= ScoreLocation(distanceKm, radiusKm) <= 1.0
  {
    DivisionIsMonotone(0.0, distanceKm, radiusKm);
  }

  /** No profile can make the response schema, which demands a score in [0, 1], refuse a result;
      rounding to four digits does not leave the interval either. */
  lemma CompositeScoreInUnit(profile: FreelancerProfile, request: MatchRequest)
    ensures 0.0 <= CompositeScore(profile, request) <= 1.0
    ensures 0.0 <= RoundScore(CompositeScore(profile, request)) <= 1.0
  {
    SkillRecallInUnit(request.skills, profile.gearCategories);
    LocationInUnit(profile.distanceKm, request.radiusKm);
    var score := CompositeScore(profile, request);
    RoundScoreIsMonotone(0.0, score);
    RoundScoreIsMonotone(score, 1.0);
  }

  /** Only which categories occur, and how many items there are, decides the score. */
  lemma ScoreIgnoresGearOrder(p: FreelancerProfile, q: FreelancerProfile, request: MatchRequest)
    requires p.distanceKm == q.distanceKm
    requires multiset(p.gearCategories) == multiset(q.gearCategories)
    ensures CompositeScore(p, request) == CompositeScore(q, request)
  {
    assert |p.gearCategories| == |multiset(p.gearCategories)| == |multiset(q.gearCategories)| == |q.gearCategories|;
    assert forall c :: c in p.gearCategories <==> c in multiset(p.gearCategories);
    assert forall c :: c in q.gearCategories <==> c in multiset(q.gearCategories);
    assert InferredSkills(p.gearCategories) == InferredSkills(q.gearCategories);
  }

  /** One more validated item, of any category and at any place in the list, never lowers the score. */
  lemma MoreGearNeverScoresLess(before: FreelancerProfile, after: FreelancerProfile, category: string, request: MatchRequest)
    requires before.distanceKm == after.distanceKm
    requires multiset(after.gearCategories) == multiset(before.gearCategories) + multiset{category}
    ensures CompositeScore(before, request) <= CompositeScore(after, request)
    ensures RoundScore(CompositeScore(before, request)) <= RoundScore(CompositeScore(after, request))
  {
    var grown := before.gearCategories + [category];
    ScoreIgnoresGearOrder(before.(gearCategories := grown), after, request);
    InferredSkillsGrow(before.gearCategories, category);
    if request.skills != [] {
      var required := RequiredSkills(request.skills);
      RequiredSkillsNonEmpty(request.skills);
      SubsetSize(required * InferredSkills(before.gearCategories), required * InferredSkills(grown));
      DivisionIsMonotone(|required * InferredSkills(before.gearCategories)| as real,
                         |required * InferredSkills(grown)| as real, |required| as real);
    }
    RoundScoreIsMonotone(CompositeScore(before, request), CompositeScore(after, request));
  }

  // ----- What each part is worth -----

  /** Nothing between capitals and small letters counts. */
  lemma CaseIsIgnored(s: string, t: string)
    requires |s| == |t|
    requires forall i :: 0 <= i < |s| ==> s[i] == t[i] || ('a' <= s[i] <= 'z' && t[i] as int == s[i] as int - 32)
    ensures Lower(s) == Lower(t)
    ensures (forall i :: 0 <= i < |s| ==> !('A' <= s[i] <= 'Z')) ==> Lower(s) == s
  {
  }

  lemma SharesSubtract(part: real, more: real, whole: real)
    requires whole > 0.0
    ensures (more - part) / whole == more / whole - part / whole
  {
  }

  /** One point at the very place, none from the radius on, and in between equal steps cost equally. */
  lemma DistanceCostsEvenly(near: Distance, far: Distance, radiusKm: Radius)
    requires near <= far
    ensures ScoreLocation(0.0, radiusKm) == 1.0
    ensures far >= radiusKm ==> ScoreLocation(far, radiusKm) == 0.0
    ensures far <= radiusKm ==> ScoreLocation(near, radiusKm) - ScoreLocation(far, radiusKm) == (far - near) / radiusKm
    ensures ScoreLocation(near, radiusKm) >= ScoreLocation(far, radiusKm)
  {
    DivisionIsMonotone(near, far, radiusKm);
    SharesSubtract(near, far, radiusKm);
    assert radiusKm / radiusKm == 1.0;
    if far >= radiusKm {
      DivisionIsMonotone(radiusKm, far, radiusKm);
    }
    if far <= radiusKm {
      DivisionIsMonotone(far, radiusKm, radiusKm);
    }
  }

  lemma PositiveShare(part: real, whole: real)
    requires part > 0.0 && whole > 0.0
    ensures part / whole > 0.0
  {
  }

  /** With the same items, the nearer freelancer never has the lower score, and has the higher one inside the
      radius. */
  lemma NearerNeverScoresLess(near: FreelancerProfile, far: FreelancerProfile, request: MatchRequest)
    requires multiset(near.gearCategories) == multiset(far.gearCategories) && near.distanceKm <= far.distanceKm
    ensures CompositeScore(near, request) >= CompositeScore(far, request)
    ensures near.distanceKm < far.distanceKm <= request.radiusKm ==> CompositeScore(near, request) > CompositeScore(far, request)
    ensures RoundScore(CompositeScore(near, request)) >= RoundScore(CompositeScore(far, request))
  {
    ScoreIgnoresGearOrder(near, far.(distanceKm := near.distanceKm), request);
    DistanceCostsEvenly(near.distanceKm, far.distanceKm, request.radiusKm);
    if near.distanceKm < far.distanceKm {
      PositiveShare(far.distanceKm - near.distanceKm, request.radiusKm);
    }
    RoundScoreIsMonotone(CompositeScore(far, request), CompositeScore(near, request));
  }

  /** Without gear, for a request that names a skill, nearness alone scores, and at most a fifth. */
  lemma NoGearScoresByDistance(profile: FreelancerProfile, request: MatchRequest)
    requires profile.gearCategories == [] && request.skills != []
    ensures CompositeScore(profile, request) == 0.2 * ScoreLocation(profile.distanceKm, request.radiusKm)
  {
    assert InferredSkills([]) == {};
    assert RequiredSkills(request.skills) * InferredSkills([]) == {};
    RequiredSkillsNonEmpty(request.skills);
  }

  /** Every required skill, five items and no distance: the full score. */
  lemma FullScore(profile: FreelancerProfile, request: MatchRequest)
    requires RequiredSkills(request.skills) <= InferredSkills(profile.gearCategories)
    requires |profile.gearCategories| >= 5 && profile.distanceKm == 0.0
    ensures CompositeScore(profile, request) == 1.0 == RoundScore(CompositeScore(profile, request))
  {
    RoundScoreIsMonotone(1.0, 1.0);
    if request.skills != [] {
      var required := RequiredSkills(request.skills);
      RequiredSkillsNonEmpty(request.skills);
      assert required * InferredSkills(profile.gearCategories) == required;
    }
  }

  /** The required skills that one more item of a category would add. */
  function NewlyCovered(skills: seq<string>, categories: seq<string>, category: string): set<string> {
    RequiredSkills(skills) * SkillsOf(category) - InferredSkills(categories)
  }

  lemma SharesAdd(part: nat, more: nat, whole: nat)
    requires whole > 0
    ensures (part + more) as real / whole as real == part as real / whole as real + more as real / whole as real
  {
  }

  lemma GearSteps(count: nat)
    ensures ScoreGear(0) == 0.0
    ensures ScoreGear(count + 1) - ScoreGear(count) == if count < 5 then 1.0 / 5.0 else 0.0
  {
  }

  lemma GrownOverlap<T>(required: set<T>, inferred: set<T>, more: set<T>)
    ensures |required * (inferred + more)| == |required * inferred| + |required * more - inferred|
  {
    assert required * (inferred + more) == required * inferred + (required * more - inferred);
  }

  lemma CoveredSteps(skills: seq<string>, categories: seq<string>, category: string)
    ensures |RequiredSkills(skills) * InferredSkills(categories + [category])|
         == |RequiredSkills(skills) * InferredSkills(categories)| + |NewlyCovered(skills, categories, category)|
  {
    InferredSkillsGrow(categories, category);
    GrownOverlap(RequiredSkills(skills), InferredSkills(categories), SkillsOf(category));
  }

  lemma RecallIs(skills: seq<string>, categories: seq<string>, covered: nat, required: nat)
    requires skills != [] && required > 0
    requires covered == |RequiredSkills(skills) * InferredSkills(categories)| && required == |RequiredSkills(skills)|
    ensures SkillRecall(skills, categories) == covered as real / required as real
  {
  }

  lemma RecallSteps(skills: seq<string>, categories: seq<string>, more: seq<string>, covered: nat, added: nat, required: nat)
    requires skills != [] && required > 0 && required == |RequiredSkills(skills)|
    requires covered == |RequiredSkills(skills) * InferredSkills(categories)|
    requires covered + added == |RequiredSkills(skills) * InferredSkills(more)|
    ensures SkillRecall(skills, more) == SkillRecall(skills, categories) + added as real / required as real
  {
    RecallIs(skills, categories, covered, required);
    RecallIs(skills, more, covered + added, required);
    SharesAdd(covered, added, required);
  }

  /** What one more item is worth: half a point shared among the required skills, for each one it newly
      covers, and three fiftieths if it is among the first five. */
  lemma OneMoreItemIsWorth(profile: FreelancerProfile, category: string, request: MatchRequest)
    requires request.skills != []
    ensures |RequiredSkills(request.skills)| > 0
    ensures var more := profile.(gearCategories := profile.gearCategories + [category]);
      CompositeScore(more, request) - CompositeScore(profile, request)
      == 0.5 * (|NewlyCovered(request.skills, profile.gearCategories, category)| as real / |RequiredSkills(request.skills)| as real)
         + if |profile.gearCategories| < 5 then 3.0 / 50.0 else 0.0
  {
    var (skills, categories) := (request.skills, profile.gearCategories);
    RequiredSkillsNonEmpty(skills);
    CoveredSteps(skills, categories, category);
    RecallSteps(skills, categories, categories + [category], |RequiredSkills(skills) * InferredSkills(categories)|,
                |NewlyCovered(skills, categories, category)|, |RequiredSkills(skills)|);
    GearSteps(|categories|);
  }

  /** Rounding goes to the nearest value with that many digits, and from the middle to the even one. */
  lemma RoundingIsNearest(x: real)
    ensures var n := RoundHalfEven(x);
      && n as real - 0.5 <= x <= n as real + 0.5
      && (x == n as real - 0.5 || x == n as real + 0.5 ==> n % 2 == 0)
  {
  }

  lemma WholeTenThousandths(n: int)
    ensures n as real / 10000.0 * 10000.0 == n as real && (n as real).Floor == n
  {
  }

  lemma RoundScoreIsNearest(x: real)
    ensures RoundScore(x) - 0.00005 <= x <= RoundScore(x) + 0.00005
    ensures RoundScore(x) * 10000.0 == (RoundScore(x) * 10000.0).Floor as real
  {
    RoundingIsNearest(x * 10000.0);
    WholeTenThousandths(RoundHalfEven(x * 10000.0));
  }

  lemma WholeHundredths(n: int)
    ensures n as real / 100.0 * 100.0 == n as real && (n as real).Floor == n
  {
  }

  lemma RoundDistanceIsNearest(x: Distance, y: Distance)
    requires x <= y
    ensures RoundDistance(x) - 0.005 <= x <= RoundDistance(x) + 0.005
    ensures RoundDistance(x) * 100.0 == (RoundDistance(x) * 100.0).Floor as real
    ensures RoundDistance(x) <= RoundDistance(y)
  {
    RoundingIsNearest(x * 100.0);
    RoundHalfEvenIsMonotone(x * 100.0, y * 100.0);
    WholeHundredths(RoundHalfEven(x * 100.0));
  }
}
