/** What the gear locker's writes mean to the ranking: only a validation changes it. */
module GearMatching {
  import opened Basics
  import opened Entities
  import opened Scoring
  import opened FreelancerRepo
  import opened Ranking
  import opened GearLocker

  /** The writes after which every ranking is as before. */
  predicate Neutral(event: GearEvent) {
    !(event.Review? && event.decision == Validated)
  }

  lemma NeutralKeepsCategories(table: seq<Gear>, event: GearEvent, owner: Uuid)
    requires Neutral(event)
    ensures ValidatedCategories(Apply(table, event), owner) == ValidatedCategories(table, owner)
  {
    var table' := Apply(table, event);
    if table' != table {
      match event
      case Add(_, _, _, _, _) =>
        ValidatedCategoriesSplit(table, [table'[|table|]], owner);
      case Pin(_, gearId, _) =>
        var k := IndexOf(table, gearId);
        ValidatedCategoriesUpdate(table, k, table'[k], owner);
      case Review(gearId, _) =>
        var k := IndexOf(table, gearId);
        ValidatedCategoriesUpdate(table, k, table'[k], owner);
    }
  }

  lemma NeutralKeepsRanking(users: seq<User>, table: seq<Gear>, event: GearEvent, geo: Geo, request: MatchRequest)
    requires Neutral(event)
    ensures Ranked(Database(users, Apply(table, event)), geo, request) == Ranked(Database(users, table), geo, request)
  {
    var located := InRadius(users, geo, request);
    forall k | 0 <= k < |located| ensures ProfileOf(located[k], Apply(table, event)) == ProfileOf(located[k], table) {
      NeutralKeepsCategories(table, event, located[k].id);
    }
    assert Candidates(located, Apply(table, event)) == Candidates(located, table);
  }

  /** Declaring, pinning, unpinning and rejecting gear, in any order and number, leaves the answer to
      every request as it was. */
  lemma {:induction false} NeutralRunKeepsRanking(users: seq<User>, table: seq<Gear>, events: seq<GearEvent>,
                                                 geo: Geo, request: MatchRequest)
    requires forall e :: e in events ==> Neutral(e)
    ensures Ranked(Database(users, GearLocker.Run(table, events)), geo, request) == Ranked(Database(users, table), geo, request)
  {
    if events != [] {
      var n := |events| - 1;
      assert events[n] in events;
      NeutralRunKeepsRanking(users, table, events[..n], geo, request);
      NeutralKeepsRanking(users, GearLocker.Run(table, events[..n]), events[n], geo, request);
    }
  }

  /** And a validation that is saved adds the item's category to what its owner is matched by, and nothing to
      anybody else. */
  lemma ValidationIsMatched(table: seq<Gear>, k: nat, owner: Uuid)
    requires DistinctIds(table) && k < |table| && table[k].status == Pending
    ensures var table' := Apply(table, Review(table[k].id, Validated));
      multiset(ValidatedCategories(table', owner))
      == multiset(ValidatedCategories(table, owner)) + if owner == table[k].freelanceId then multiset{table[k].category} else multiset{}
  {
    IndexOfRow(table, k);
    ValidatingAddsCategory(table, k, owner);
  }
}
