/** From outer-join rows to one profile per freelancer
    (matching-service/app/services/freelancer_repo.py). */
module FreelancerRepo {
  import opened Basics
  import opened Entities
  import opened Scoring

  /** What PostGIS answers: the distance in kilometres and the ST_DWithin test in metres. */
  datatype Geo = Geo(distanceKm: (Point, Point) -> Distance, within: (Point, Point, real) -> bool)

  /** A freelancer the WHERE clause keeps, and the distance computed for it. */
  datatype Located = Located(id: Uuid, distanceKm: Distance)

  /** One row of the outer join: a freelancer, and the category of one validated item or NULL. */
  datatype Row = Row(who: Located, category: Option<string>)

  /** The request carries (latitude, longitude); ST_MakePoint wants the longitude first. */
  function QueryPoint(location: (real, real)): Point {
    Point(location.1, location.0)
  }

  /** The freelancers with a known position inside the radius, in id order. */
  function InRadius(users: seq<User>, geo: Geo, request: MatchRequest): seq<Located> {
    if users == [] then []
    else
      var user, point := users[0], QueryPoint(request.location);
      (if && user.role == Freelance
          && user.location.Some?
          && geo.within(user.location.value, point, request.radiusKm * 1000.0)
       then [Located(user.id, geo.distanceKm(user.location.value, point))] else [])
      + InRadius(users[1..], geo, request)
  }

  /** Who is in the radius: the freelancers with a position within that many metres of the point whose
      latitude comes first in the request, each with its distance. */
  lemma {:induction false} InRadiusExactly(users: seq<User>, geo: Geo, request: MatchRequest, who: Located)
    ensures who in InRadius(users, geo, request)
       <==> exists user :: user in users && user.role == Freelance && user.location.Some? && user.id == who.id
              && geo.within(user.location.value, Point(request.location.1, request.location.0), 1000.0 * request.radiusKm)
              && who.distanceKm == geo.distanceKm(user.location.value, Point(request.location.1, request.location.0))
  {
    if users != [] {
      InRadiusExactly(users[1..], geo, request, who);
      assert users == [users[0]] + users[1..];
    }
  }

  /** The profile of one freelancer, read straight from the gear table. */
  function ProfileOf(who: Located, gear: seq<Gear>): FreelancerProfile {
    FreelancerProfile(who.id, ValidatedCategories(gear, who.id), who.distanceKm)
  }

  /** The reference: one profile per freelancer in the radius, each with its own validated items. */
  function Candidates(located: seq<Located>, gear: seq<Gear>): seq<FreelancerProfile> {
    seq(|located|, k requires 0 <= k < |located| => ProfileOf(located[k], gear))
  }

  ghost predicate AscendingIds(located: seq<Located>) {
    forall i, j :: 0 <= i < j < |located| ==> located[i].id < located[j].id
  }

  lemma {:induction false} InRadiusAbove(users: seq<User>, geo: Geo, request: MatchRequest, floor: int)
    requires forall user :: user in users ==> floor < user.id
    ensures forall who :: who in InRadius(users, geo, request) ==> floor < who.id
  {
    if users != [] {
      assert users[0] in users;
      assert forall user :: user in users[1..] ==> user in users;
      InRadiusAbove(users[1..], geo, request, floor);
    }
  }

  lemma {:induction false} InRadiusAscending(users: seq<User>, geo: Geo, request: MatchRequest)
    requires AscendingUsers(users)
    ensures AscendingIds(InRadius(users, geo, request))
  {
    if users != [] {
      InRadiusAscending(users[1..], geo, request);
      InRadiusAbove(users[1..], geo, request, users[0].id);
    }
  }

  // ----- The outer join, as a specification of the SQL statement -----

  /** The non-NULL categories of one freelancer's rows. */
  function CategoriesIn(rows: seq<Row>, id: Uuid): seq<string> {
    if rows == [] then []
    else
      var row := rows[|rows| - 1];
      CategoriesIn(rows[..|rows| - 1], id)
      + if row.who.id == id && row.category.Some? then [row.category.value] else []
  }

  function NullRows(rows: seq<Row>, id: Uuid): nat {
    if rows == [] then 0
    else
      var row := rows[|rows| - 1];
      NullRows(rows[..|rows| - 1], id) + if row.who.id == id && row.category.None? then 1 else 0
  }

  ghost predicate RowsInIdOrder(rows: seq<Row>) {
    forall i, j :: 0 <= i < j < |rows| ==> rows[i].who.id <= rows[j].who.id
  }

  /** `rows` answers the statement, up to what the statement leaves open: the order of the rows of one
      freelancer. Each freelancer in the radius has one row per validated item, or a single NULL row
      when there is none, and nobody else has a row. */
  ghost predicate IsOuterJoin(rows: seq<Row>, located: seq<Located>, gear: seq<Gear>) {
    && RowsInIdOrder(rows)
    && (forall row :: row in rows ==> row.who in located)
    && (forall who :: who in located ==>
          && multiset(CategoriesIn(rows, who.id)) == multiset(ValidatedCategories(gear, who.id))
          && NullRows(rows, who.id) == if ValidatedCategories(gear, who.id) == [] then 1 else 0)
  }

  // ----- The grouping loop -----

  /** Where the insertion-ordered `profiles` dictionary holds an id; its length when it does not. */
  function Find(profiles: seq<FreelancerProfile>, id: Uuid): (k: nat)
    ensures k <= |profiles|
    ensures k < |profiles| ==> profiles[k].freelanceId == id
    ensures forall j :: 0 <= j < k ==> profiles[j].freelanceId != id
  {
    FirstIndex(profiles, (p: FreelancerProfile) => p.freelanceId == id)
  }

  /** One turn of the loop. */
  function AddRow(profiles: seq<FreelancerProfile>, row: Row): seq<FreelancerProfile> {
    var k := Find(profiles, row.who.id);
    var present :=
      if k < |profiles| then profiles
      else profiles + [FreelancerProfile(row.who.id, [], row.who.distanceKm)];
    if row.category.None? then present
    else present[k := present[k].(gearCategories := present[k].gearCategories + [row.category.value])]
  }

  function Grouped(rows: seq<Row>): seq<FreelancerProfile> {
    if rows == [] then [] else AddRow(Grouped(rows[..|rows| - 1]), rows[|rows| - 1])
  }

  method GetCandidates(rows: seq<Row>) returns (profiles: seq<FreelancerProfile>)
    ensures profiles == Grouped(rows)
  {
    profiles := [];
    for i := 0 to |rows|
      invariant profiles == Grouped(rows[..i])
    {
      var row := rows[i];
      assert rows[..i + 1][..i] == rows[..i];
      var k := Find(profiles, row.who.id);
      if k == |profiles| {
        profiles := profiles + [FreelancerProfile(row.who.id, [], row.who.distanceKm)];
      }
      if row.category.Some? {
        var profile := profiles[k];
        profiles := profiles[k := profile.(gearCategories := profile.gearCategories + [row.category.value])];
      }
    }
    assert rows[..|rows|] == rows;
  }

  // ----- The loop refines the reference -----

  lemma {:induction false} NoRowsNoCategories(rows: seq<Row>, id: Uuid)
    requires forall row :: row in rows ==> row.who.id != id
    ensures CategoriesIn(rows, id) == [] && NullRows(rows, id) == 0
  {
    if rows != [] {
      NoRowsNoCategories(rows[..|rows| - 1], id);
    }
  }

  ghost predicate OnePerFreelancer(profiles: seq<FreelancerProfile>) {
    forall i, j :: 0 <= i < j < |profiles| ==> profiles[i].freelanceId != profiles[j].freelanceId
  }

  ghost predicate AscendingProfiles(profiles: seq<FreelancerProfile>) {
    forall i, j :: 0 <= i < j < |profiles| ==> profiles[i].freelanceId < profiles[j].freelanceId
  }

  ghost predicate HasProfile(profiles: seq<FreelancerProfile>, id: Uuid) {
    exists k :: 0 <= k < |profiles| && profiles[k].freelanceId == id
  }

  /** `p` holds all the categories of its freelancer's rows, and the distance some row gave. */
  ghost predicate Describes(p: FreelancerProfile, rows: seq<Row>) {
    && p.gearCategories == CategoriesIn(rows, p.freelanceId)
    && exists row :: row in rows && row.who == Located(p.freelanceId, p.distanceKm)
  }

  /** What grouping keeps, in any row order: one profile for each freelancer that has a row and for
      no other, with exactly that freelancer's categories; id order if the rows have it. */
  ghost predicate Groups(profiles: seq<FreelancerProfile>, rows: seq<Row>) {
    && OnePerFreelancer(profiles)
    && (forall k :: 0 <= k < |profiles| ==> Describes(profiles[k], rows))
    && (forall row :: row in rows ==> HasProfile(profiles, row.who.id))
    && (RowsInIdOrder(rows) ==> AscendingProfiles(profiles))
  }

  lemma AddRowCovers(profiles: seq<FreelancerProfile>, before: seq<Row>, row: Row)
    requires OnePerFreelancer(profiles)
    requires forall r :: r in before ==> HasProfile(profiles, r.who.id)
    ensures OnePerFreelancer(AddRow(profiles, row))
    ensures forall r :: r in before + [row] ==> HasProfile(AddRow(profiles, row), r.who.id)
  {
    var added := AddRow(profiles, row);
    assert added[Find(profiles, row.who.id)].freelanceId == row.who.id;
    assert forall j :: 0 <= j < |profiles| ==> added[j].freelanceId == profiles[j].freelanceId;
    forall r | r in before + [row] ensures HasProfile(added, r.who.id) {
      if r in before {
        assert HasProfile(profiles, r.who.id);
        var j :| 0 <= j < |profiles| && profiles[j].freelanceId == r.who.id;
        assert added[j].freelanceId == r.who.id;
      }
    }
  }

  lemma StillDescribes(p: FreelancerProfile, p': FreelancerProfile, before: seq<Row>, row: Row)
    requires Describes(p, before) && p'.freelanceId == p.freelanceId && p'.distanceKm == p.distanceKm
    requires p'.gearCategories == p.gearCategories
      + if row.who.id == p.freelanceId && row.category.Some? then [row.category.value] else []
    ensures Describes(p', before + [row])
  {
    var rows := before + [row];
    assert rows[..|before|] == before;
    var r :| r in before && r.who == Located(p.freelanceId, p.distanceKm);
    assert r in rows && r.who == Located(p'.freelanceId, p'.distanceKm);
  }

  lemma AddRowDescribes(profiles: seq<FreelancerProfile>, before: seq<Row>, row: Row)
    requires Groups(profiles, before)
    ensures forall k :: 0 <= k < |AddRow(profiles, row)| ==> Describes(AddRow(profiles, row)[k], before + [row])
  {
    var added, rows := AddRow(profiles, row), before + [row];
    var k := Find(profiles, row.who.id);
    assert rows[..|before|] == before && rows[|before|] == row;
    if k == |profiles| {
      forall r | r in before ensures r.who.id != row.who.id {
        assert HasProfile(profiles, r.who.id);
      }
      NoRowsNoCategories(before, row.who.id);
    }
    forall j | 0 <= j < |added| ensures Describes(added[j], rows) {
      if j < |profiles| {
        StillDescribes(profiles[j], added[j], before, row);
      } else {
        assert row in rows && row.who == Located(added[j].freelanceId, added[j].distanceKm);
      }
    }
  }

  lemma RowsInIdOrderSplit(before: seq<Row>, row: Row)
    requires RowsInIdOrder(before + [row])
    ensures RowsInIdOrder(before)
    ensures forall r :: r in before ==> r.who.id <= row.who.id
  {
    var rows := before + [row];
    forall i, j | 0 <= i < j < |before| ensures before[i].who.id <= before[j].who.id {
      assert rows[i] == before[i] && rows[j] == before[j];
    }
    forall r | r in before ensures r.who.id <= row.who.id {
      var i :| 0 <= i < |before| && before[i] == r;
      assert rows[i] == r && rows[|before|] == row;
    }
  }

  lemma AddRowAscends(profiles: seq<FreelancerProfile>, before: seq<Row>, row: Row)
    requires AscendingProfiles(profiles)
    requires forall k :: 0 <= k < |profiles| ==> Describes(profiles[k], before)
    requires forall r :: r in before ==> r.who.id <= row.who.id
    ensures AscendingProfiles(AddRow(profiles, row))
  {
    forall j | 0 <= j < |profiles| ensures profiles[j].freelanceId <= row.who.id {
      assert Describes(profiles[j], before);
    }
  }

  lemma AddRowGroups(profiles: seq<FreelancerProfile>, before: seq<Row>, row: Row)
    requires Groups(profiles, before)
    ensures Groups(AddRow(profiles, row), before + [row])
  {
    AddRowCovers(profiles, before, row);
    AddRowDescribes(profiles, before, row);
    if RowsInIdOrder(before + [row]) {
      RowsInIdOrderSplit(before, row);
      AddRowAscends(profiles, before, row);
    }
  }

  lemma {:induction false} GroupedGroups(rows: seq<Row>)
    ensures Groups(Grouped(rows), rows)
  {
    if rows != [] {
      var before, row := rows[..|rows| - 1], rows[|rows| - 1];
      GroupedGroups(before);
      assert rows == before + [row];
      AddRowGroups(Grouped(before), before, row);
    }
  }

  /** Same freelancer, same distance, same validated items; the order of the items is free. */
  ghost predicate SameProfile(p: FreelancerProfile, q: FreelancerProfile) {
    && p.freelanceId == q.freelanceId
    && p.distanceKm == q.distanceKm
    && multiset(p.gearCategories) == multiset(q.gearCategories)
  }

  ghost predicate SameProfiles(ps: seq<FreelancerProfile>, qs: seq<FreelancerProfile>) {
    |ps| == |qs| && forall k :: 0 <= k < |ps| ==> SameProfile(ps[k], qs[k])
  }

  lemma {:induction false} AscendingListsWithSameElements(xs: seq<nat>, ys: seq<nat>)
    requires forall i, j :: 0 <= i < j < |xs| ==> xs[i] < xs[j]
    requires forall i, j :: 0 <= i < j < |ys| ==> ys[i] < ys[j]
    requires forall n :: n in xs <==> n in ys
    ensures xs == ys
  {
    assert xs != [] ==> xs[0] in ys;
    assert ys != [] ==> ys[0] in xs;
    if xs != [] {
      forall n ensures n in xs[1..] <==> n in ys[1..] {
        assert n in xs[1..] <==> n in xs && n != xs[0];
        assert n in ys[1..] <==> n in ys && n != ys[0];
      }
      AscendingListsWithSameElements(xs[1..], ys[1..]);
      assert xs == [xs[0]] + xs[1..] && ys == [ys[0]] + ys[1..];
    }
  }

  lemma {:induction false} CategoryRowExists(rows: seq<Row>, id: Uuid)
    requires CategoriesIn(rows, id) != [] || NullRows(rows, id) > 0
    ensures exists row :: row in rows && row.who.id == id
  {
    var last := rows[|rows| - 1];
    assert rows == rows[..|rows| - 1] + [last];
    if last.who.id == id {
      assert last in rows;
    } else {
      CategoryRowExists(rows[..|rows| - 1], id);
    }
  }

  function IdColumn(profiles: seq<FreelancerProfile>): seq<Uuid> {
    seq(|profiles|, k requires 0 <= k < |profiles| => profiles[k].freelanceId)
  }

  lemma ProfileIsLocated(rows: seq<Row>, located: seq<Located>, gear: seq<Gear>, k: nat) returns (i: nat)
    requires IsOuterJoin(rows, located, gear)
    requires k < |Grouped(rows)|
    ensures i < |located|
    ensures located[i] == Located(Grouped(rows)[k].freelanceId, Grouped(rows)[k].distanceKm)
    ensures Grouped(rows)[k].gearCategories == CategoriesIn(rows, located[i].id)
  {
    GroupedGroups(rows);
    var p := Grouped(rows)[k];
    assert Describes(p, rows);
    i :| 0 <= i < |located| && located[i] == Located(p.freelanceId, p.distanceKm);
  }

  lemma LocatedHasProfile(rows: seq<Row>, located: seq<Located>, gear: seq<Gear>, i: nat) returns (k: nat)
    requires i < |located| && IsOuterJoin(rows, located, gear)
    ensures k < |Grouped(rows)| && Grouped(rows)[k].freelanceId == located[i].id
  {
    var id := located[i].id;
    assert located[i] in located;
    GroupedGroups(rows);
    var items := ValidatedCategories(gear, id);
    if items != [] {
      assert items[0] in multiset(items);
      assert CategoriesIn(rows, id) != [];
    }
    CategoryRowExists(rows, id);
    assert HasProfile(Grouped(rows), id);
    k :| 0 <= k < |Grouped(rows)| && Grouped(rows)[k].freelanceId == id;
  }

  lemma GroupedIds(rows: seq<Row>, located: seq<Located>, gear: seq<Gear>)
    requires AscendingIds(located)
    requires IsOuterJoin(rows, located, gear)
    ensures |Grouped(rows)| == |located|
    ensures forall k :: 0 <= k < |located| ==> Grouped(rows)[k].freelanceId == located[k].id
  {
    var ids := IdColumn(Grouped(rows));
    var wanted := seq(|located|, k requires 0 <= k < |located| => located[k].id);
    assert forall i, j :: 0 <= i < j < |ids| ==> ids[i] < ids[j] by {
      GroupedGroups(rows);
    }
    forall k | 0 <= k < |ids| ensures ids[k] in wanted {
      var i := ProfileIsLocated(rows, located, gear, k);
      assert wanted[i] == ids[k];
    }
    forall i | 0 <= i < |wanted| ensures wanted[i] in ids {
      var k := LocatedHasProfile(rows, located, gear, i);
      assert ids[k] == wanted[i];
    }
    AscendingListsWithSameElements(ids, wanted);
    forall k | 0 <= k < |located| ensures Grouped(rows)[k].freelanceId == located[k].id {
      assert ids[k] == wanted[k];
    }
  }

  /** Whatever order the database gave each freelancer's rows in, the loop yields exactly one profile
      per freelancer in the radius, in id order, with exactly their validated items. */
  lemma GroupingRefinesCandidates(rows: seq<Row>, located: seq<Located>, gear: seq<Gear>)
    requires AscendingIds(located)
    requires IsOuterJoin(rows, located, gear)
    ensures SameProfiles(Grouped(rows), Candidates(located, gear))
  {
    GroupedIds(rows, located, gear);
    forall k | 0 <= k < |located| ensures SameProfile(Grouped(rows)[k], Candidates(located, gear)[k]) {
      var i := ProfileIsLocated(rows, located, gear, k);
      assert i == k;
      assert located[k] in located;
    }
  }
}
