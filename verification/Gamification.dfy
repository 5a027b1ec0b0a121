/** XP, level and badges, derived on read
    (backend-core/src/gamification/gamification.service.ts). */
module Gamification {
  import opened Basics
  import opened Entities
  import GearLocker
  import opened Certifications

  const XP_PER_VALIDATED_GEAR: nat := 50
  const XP_PER_COVERED_CATEGORY: nat := 30
  const XP_PER_VALIDATED_CERTIFICATION: nat := 80

  datatype LevelDefinition = LevelDefinition(threshold: nat, level: nat, title: string)

  const LEVELS: seq<LevelDefinition> := [
    LevelDefinition(0, 1, "Recrue"),
    LevelDefinition(100, 2, "Opérateur"),
    LevelDefinition(250, 3, "Spécialiste"),
    LevelDefinition(450, 4, "Vétéran"),
    LevelDefinition(700, 5, "Élite"),
    LevelDefinition(1000, 6, "Légende")]

  datatype Stats = Stats(
    validatedGear: nat,
    coveredCategories: nat,
    validatedCertifications: nat,
    dgacCertifications: nat,
    loadoutCount: nat)

  datatype Badge = FirstValidated | Arsenal5 | Arsenal10 | Polyvalent | Certified | DgacPilot | LoadoutFull

  const BADGES: seq<Badge> := [FirstValidated, Arsenal5, Arsenal10, Polyvalent, Certified, DgacPilot, LoadoutFull]

  datatype Profile = Profile(xp: nat, level: LevelDefinition, nextLevelAt: Option<nat>, badges: seq<bool>)

  // ----- What is counted -----

  function ValidatedIds(gear: seq<Gear>, user: Uuid): set<Uuid> {
    set g | g in gear && g.freelanceId == user && g.status == Validated :: g.id
  }

  function CoveredCategories(gear: seq<Gear>, user: Uuid): set<string> {
    set g | g in gear && g.freelanceId == user && g.status == Validated :: g.category
  }

  function ShownIds(gear: seq<Gear>, user: Uuid): set<Uuid> {
    set g | g in gear && g.freelanceId == user && g.status == Validated && g.isInLoadout :: g.id
  }

  function ValidatedCerts(certs: seq<Certification>, user: Uuid): set<Uuid> {
    set c | c in certs && c.freelanceId == user && c.status == CertValidated :: c.id
  }

  function DgacCerts(certs: seq<Certification>, user: Uuid): set<Uuid> {
    set c | c in certs && c.freelanceId == user && c.status == CertValidated && c.kind == "DGAC_DRONE" :: c.id
  }

  function StatsFor(gear: seq<Gear>, certs: seq<Certification>, user: Uuid): Stats {
    Stats(|ValidatedIds(gear, user)|, |CoveredCategories(gear, user)|, |ValidatedCerts(certs, user)|,
          |DgacCerts(certs, user)|, |ShownIds(gear, user)|)
  }

  // ----- What is derived -----

  function Xp(stats: Stats): nat {
    stats.validatedGear * XP_PER_VALIDATED_GEAR
    + stats.coveredCategories * XP_PER_COVERED_CATEGORY
    + stats.validatedCertifications * XP_PER_VALIDATED_CERTIFICATION
  }

  /** The first match from the end: `[...LEVELS].reverse().find(xp >= threshold) ?? LEVELS[0]`. */
  function CurrentLevel(levels: seq<LevelDefinition>, xp: nat): LevelDefinition {
    if levels == [] then LEVELS[0]
    else if xp >= levels[|levels| - 1].threshold then levels[|levels| - 1]
    else CurrentLevel(levels[..|levels| - 1], xp)
  }

  /** The first match from the start: `LEVELS.find(threshold > xp)?.threshold ?? null`. */
  function NextThreshold(levels: seq<LevelDefinition>, xp: nat): Option<nat> {
    if levels == [] then None
    else if levels[0].threshold > xp then Some(levels[0].threshold)
    else NextThreshold(levels[1..], xp)
  }

  predicate Earned(badge: Badge, stats: Stats) {
    match badge
    case FirstValidated => stats.validatedGear >= 1
    case Arsenal5 => stats.validatedGear >= 5
    case Arsenal10 => stats.validatedGear >= 10
    case Polyvalent => stats.coveredCategories >= 3
    case Certified => stats.validatedCertifications >= 1
    case DgacPilot => stats.dgacCertifications >= 1
    case LoadoutFull => stats.loadoutCount >= GearLocker.LOADOUT_MAX_SLOTS
  }

  function ProfileFor(gear: seq<Gear>, certs: seq<Certification>, user: Uuid): Profile {
    var stats := StatsFor(gear, certs, user);
    Profile(Xp(stats), CurrentLevel(LEVELS, Xp(stats)), NextThreshold(LEVELS, Xp(stats)),
            seq(|BADGES|, i requires 0 <= i < |BADGES| => Earned(BADGES[i], stats)))
  }

  // ----- The two searches agree -----

  ghost predicate AscendingLevels(levels: seq<LevelDefinition>) {
    forall i, j :: 0 <= i < j < |levels| ==>
      levels[i].threshold < levels[j].threshold && levels[i].level < levels[j].level
  }

  /** Level `k` is reached and the one after it is not. */
  predicate IsLevelOf(levels: seq<LevelDefinition>, xp: nat, k: nat) {
    && k < |levels|
    && levels[k].threshold <= xp
    && (k + 1 < |levels| ==> xp < levels[k + 1].threshold)
  }

  lemma {:induction false} CurrentLevelIsHighest(levels: seq<LevelDefinition>, xp: nat) returns (k: nat)
    requires levels != [] && AscendingLevels(levels) && levels[0].threshold == 0
    ensures IsLevelOf(levels, xp, k) && CurrentLevel(levels, xp) == levels[k]
  {
    k := |levels| - 1;
    if xp < levels[k].threshold {
      k := CurrentLevelIsHighest(levels[..k], xp);
    }
  }

  lemma {:induction false} NextThresholdIsLowest(levels: seq<LevelDefinition>, xp: nat, k: nat)
    requires AscendingLevels(levels) && k <= |levels|
    requires forall i :: 0 <= i < k ==> levels[i].threshold <= xp
    requires k < |levels| ==> xp < levels[k].threshold
    ensures NextThreshold(levels, xp) == if k < |levels| then Some(levels[k].threshold) else None
  {
    if k > 0 {
      NextThresholdIsLowest(levels[1..], xp, k - 1);
    }
  }

  lemma LevelsAscend()
    ensures AscendingLevels(LEVELS)
  {
  }

  /** For every XP there is exactly one level whose threshold is reached and whose successor's is not;
      the backward search returns it and the forward search returns the successor's threshold. */
  lemma LevelIsUnique(xp: nat) returns (k: nat)
    ensures IsLevelOf(LEVELS, xp, k)
    ensures forall j: nat :: IsLevelOf(LEVELS, xp, j) ==> j == k
    ensures CurrentLevel(LEVELS, xp) == LEVELS[k]
    ensures NextThreshold(LEVELS, xp) == if k + 1 < |LEVELS| then Some(LEVELS[k + 1].threshold) else None
  {
    LevelsAscend();
    k := CurrentLevelIsHighest(LEVELS, xp);
    NextThresholdIsLowest(LEVELS, xp, k + 1);
  }

  lemma LevelIsMonotone(xp: nat, more: nat)
    requires xp <= more
    ensures CurrentLevel(LEVELS, xp).level <= CurrentLevel(LEVELS, more).level
  {
    LevelsAscend();
    var i := CurrentLevelIsHighest(LEVELS, xp);
    var j := CurrentLevelIsHighest(LEVELS, more);
    assert i <= j;
  }

  // ----- Nothing earned is lost -----

  /** Rows of the certification table are never dropped or moved, and a decision is final. */
  ghost predicate CertsSettle(earlier: seq<Certification>, later: seq<Certification>) {
    && |earlier| <= |later|
    && (forall k :: 0 <= k < |earlier| ==>
          && later[k].id == earlier[k].id && later[k].freelanceId == earlier[k].freelanceId
          && later[k].kind == earlier[k].kind && later[k].number == earlier[k].number
          && (earlier[k].status != CertPending ==> later[k].status == earlier[k].status))
  }

  lemma CertStepSettles(config: Config, registry: Registry, event: CertEvent)
    ensures CertsSettle(registry.certs, Certifications.Apply(config, registry, event).certs)
  {
  }

  lemma {:induction false} CertRunSettles(config: Config, registry: Registry, events: seq<CertEvent>)
    ensures CertsSettle(registry.certs, Certifications.Run(config, registry, events).certs)
  {
    if events != [] {
      CertRunSettles(config, registry, events[..|events| - 1]);
      CertStepSettles(config, Certifications.Run(config, registry, events[..|events| - 1]), events[|events| - 1]);
    }
  }

  lemma GearCountsGrow(earlier: seq<Gear>, later: seq<Gear>, user: Uuid)
    requires GearLocker.Settles(earlier, later)
    ensures ValidatedIds(earlier, user) <= ValidatedIds(later, user)
    ensures CoveredCategories(earlier, user) <= CoveredCategories(later, user)
  {
    forall g | g in earlier && g.freelanceId == user && g.status == Validated
      ensures g.id in ValidatedIds(later, user) && g.category in CoveredCategories(later, user)
    {
      var k :| 0 <= k < |earlier| && earlier[k] == g;
      assert later[k].(status := Pending, isInLoadout := false) == g.(status := Pending, isInLoadout := false);
      assert later[k].(status := Pending, isInLoadout := false).id == g.id
          && later[k].(status := Pending, isInLoadout := false).freelanceId == user
          && later[k].(status := Pending, isInLoadout := false).category == g.category;
      assert later[k] in later;
    }
  }

  lemma CertCountsGrow(earlier: seq<Certification>, later: seq<Certification>, user: Uuid)
    requires CertsSettle(earlier, later)
    ensures ValidatedCerts(earlier, user) <= ValidatedCerts(later, user)
    ensures DgacCerts(earlier, user) <= DgacCerts(later, user)
  {
    forall c | c in earlier && c.freelanceId == user && c.status == CertValidated
      ensures c.id in ValidatedCerts(later, user)
      ensures c.kind == "DGAC_DRONE" ==> c.id in DgacCerts(later, user)
    {
      var k :| 0 <= k < |earlier| && earlier[k] == c;
      assert later[k] in later;
    }
  }

  /** Over any run of gear and certification operations, faults included, XP, level and every badge but
      the loadout one never go down. */
  lemma ProgressIsMonotone(gear: seq<Gear>, gearEvents: seq<GearLocker.GearEvent>,
                           config: Config, registry: Registry, certEvents: seq<CertEvent>, user: Uuid)
    ensures var before := ProfileFor(gear, registry.certs, user);
      var after := ProfileFor(GearLocker.Run(gear, gearEvents), Certifications.Run(config, registry, certEvents).certs, user);
      && before.xp <= after.xp
      && before.level.level <= after.level.level
      && (forall i :: 0 <= i < |BADGES| && BADGES[i] != LoadoutFull && before.badges[i] ==> after.badges[i])
  {
    var gear', certs' := GearLocker.Run(gear, gearEvents), Certifications.Run(config, registry, certEvents).certs;
    GearLocker.RunSettles(gear, gearEvents);
    CertRunSettles(config, registry, certEvents);
    GearCountsGrow(gear, gear', user);
    CertCountsGrow(registry.certs, certs', user);
    SubsetSize(ValidatedIds(gear, user), ValidatedIds(gear', user));
    SubsetSize(CoveredCategories(gear, user), CoveredCategories(gear', user));
    SubsetSize(ValidatedCerts(registry.certs, user), ValidatedCerts(certs', user));
    SubsetSize(DgacCerts(registry.certs, user), DgacCerts(certs', user));
    LevelIsMonotone(Xp(StatsFor(gear, registry.certs, user)), Xp(StatsFor(gear', certs', user)));
  }

  /** The loadout badge counts validated pinned items and the pin guard counts pinned items: after any
      run of the locker they count the same, so the badge is earned exactly when no slot is left. */
  lemma LoadoutCountsAgree(gearEvents: seq<GearLocker.GearEvent>, certs: seq<Certification>, user: Uuid)
    ensures var gear := GearLocker.Run([], gearEvents);
      var stats := StatsFor(gear, certs, user);
      && stats.loadoutCount == |GearLocker.PinnedIds(gear, user)| <= GearLocker.LOADOUT_MAX_SLOTS
      && (Earned(LoadoutFull, stats) <==> |GearLocker.PinnedIds(gear, user)| == GearLocker.LOADOUT_MAX_SLOTS)
  {
    var gear := GearLocker.Run([], gearEvents);
    GearLocker.RunIsSound(gearEvents);
    assert ShownIds(gear, user) == GearLocker.PinnedIds(gear, user);
    assert GearLocker.LoadoutFits(gear, user);
  }

  // ----- What is earned -----

  /** The levels, written out. */
  lemma LevelTable(xp: nat)
    ensures CurrentLevel(LEVELS, xp).level ==
      if xp < 100 then 1 else if xp < 250 then 2 else if xp < 450 then 3 else if xp < 700 then 4 else if xp < 1000 then 5 else 6
    ensures NextThreshold(LEVELS, xp) ==
      if xp < 100 then Some(100) else if xp < 250 then Some(250) else if xp < 450 then Some(450)
      else if xp < 700 then Some(700) else if xp < 1000 then Some(1000) else None
  {
    var k := LevelIsUnique(xp);
  }

  /** The badges of a user, from the tables. */
  lemma BadgesOf(gear: seq<Gear>, certs: seq<Certification>, user: Uuid)
    ensures ProfileFor(gear, certs, user).badges ==
      [|ValidatedIds(gear, user)| >= 1, |ValidatedIds(gear, user)| >= 5, |ValidatedIds(gear, user)| >= 10,
       |CoveredCategories(gear, user)| >= 3, |ValidatedCerts(certs, user)| >= 1, |DgacCerts(certs, user)| >= 1,
       |ShownIds(gear, user)| >= 4]
  {
  }

  /** Nothing validated, nothing earned. */
  lemma NothingEarnsNothing(gear: seq<Gear>, certs: seq<Certification>, user: Uuid)
    requires forall g :: g in gear && g.freelanceId == user ==> g.status != Validated
    requires forall c :: c in certs && c.freelanceId == user ==> c.status != CertValidated
    ensures ProfileFor(gear, certs, user).xp == 0
  {
    assert ValidatedIds(gear, user) == {} && CoveredCategories(gear, user) == {} && ValidatedCerts(certs, user) == {};
  }

  lemma ValidatedAfter(gear: seq<Gear>, k: nat, user: Uuid)
    requires GearLocker.DistinctIds(gear) && k < |gear| && gear[k].status == Pending && gear[k].freelanceId == user
    ensures var after := GearLocker.Apply(gear, GearLocker.Review(gear[k].id, Validated));
      && ValidatedIds(after, user) == ValidatedIds(gear, user) + {gear[k].id} && gear[k].id !in ValidatedIds(gear, user)
      && CoveredCategories(after, user) == CoveredCategories(gear, user) + {gear[k].category}
  {
    GearLocker.IndexOfRow(gear, k);
    var after := GearLocker.Apply(gear, GearLocker.Review(gear[k].id, Validated));
    assert after[k] in after && gear[k] in gear;
    forall g | g in gear && g != gear[k] ensures g in after {
      var j :| 0 <= j < |gear| && gear[j] == g;
      assert after[j] == g;
    }
    forall g | g in after && g != after[k] ensures g in gear && g != gear[k] {
      var j :| 0 <= j < |after| && after[j] == g;
      assert gear[j] == g;
    }
  }

  /** A validated item is worth 50 points, and 30 more if its category is new to its owner's validated items; to
      anybody else it is worth nothing. */
  lemma ValidationEarns(gear: seq<Gear>, certs: seq<Certification>, k: nat)
    requires GearLocker.DistinctIds(gear) && k < |gear| && gear[k].status == Pending
    ensures var (user, after) := (gear[k].freelanceId, GearLocker.Apply(gear, GearLocker.Review(gear[k].id, Validated)));
      ProfileFor(after, certs, user).xp == ProfileFor(gear, certs, user).xp + 50
        + if gear[k].category in CoveredCategories(gear, user) then 0 else 30
  {
    var user := gear[k].freelanceId;
    ValidatedAfter(gear, k, user);
    assert gear[k].category in CoveredCategories(gear, user) ==>
      CoveredCategories(gear, user) + {gear[k].category} == CoveredCategories(gear, user);
  }

  lemma CertifiedAfter(certs: seq<Certification>, after: seq<Certification>, k: nat, user: Uuid)
    requires k < |certs| == |after| && certs[k].status == CertPending && certs[k].freelanceId == user
    requires after[k].id == certs[k].id && after[k].freelanceId == user && after[k].status == CertValidated
    requires forall j :: 0 <= j < |certs| && j != k ==> after[j] == certs[j]
    requires forall i, j :: 0 <= i < j < |certs| ==> certs[i].id != certs[j].id
    ensures ValidatedCerts(after, user) == ValidatedCerts(certs, user) + {certs[k].id} && certs[k].id !in ValidatedCerts(certs, user)
  {
    assert after[k] in after;
    forall c | c in certs && c != certs[k] ensures c in after {
      var j :| 0 <= j < |certs| && certs[j] == c;
      assert after[j] == c;
    }
    forall c | c in after && c != after[k] ensures c in certs && c != certs[k] {
      var j :| 0 <= j < |after| && after[j] == c;
      assert certs[j] == c;
    }
  }

  /** A validated certification is worth 80 points to its owner, and the pilot badge if it is a DGAC one. */
  lemma CertificationEarns(gear: seq<Gear>, registry: Registry, k: nat, now: nat)
    requires RowsConsistent(registry) && k < |registry.certs| && registry.certs[k].status == CertPending
    ensures var (user, after) := (registry.certs[k].freelanceId,
        Reviewed(registry, registry.certs[k].id, CertValidated, None, now, Answered, Answered).registry.certs);
      && ProfileFor(gear, after, user).xp == ProfileFor(gear, registry.certs, user).xp + 80
      && Earned(Certified, StatsFor(gear, after, user))
      && (registry.certs[k].kind == "DGAC_DRONE" ==> Earned(DgacPilot, StatsFor(gear, after, user)))
  {
    var (certs, user) := (registry.certs, registry.certs[k].freelanceId);
    ReviewRecords(registry, k, CertValidated, None, now);
    var after := Reviewed(registry, certs[k].id, CertValidated, None, now, Answered, Answered).registry.certs;
    CertifiedAfter(certs, after, k, user);
    assert after[k] in after;
    assert certs[k].kind == "DGAC_DRONE" ==> after[k].id in DgacCerts(after, user);
    assert after[k].id in ValidatedCerts(after, user);
  }
}
