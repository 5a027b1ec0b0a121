/** The gear locker: declaration, admin review and the loadout
    (backend-core/src/gear/gear.service.ts). */
module GearLocker {
  import opened Basics
  import opened Entities
  import opened Text
  import opened EventBus
  import opened EventServices

  const LOADOUT_MAX_SLOTS: nat := 4

  datatype GearError = NotFound | BadRequest | Conflict

  datatype Result = Saved(gear: Gear) | Failed(error: GearError)

  // ----- The table -----

  function IndexOf(table: seq<Gear>, id: Uuid): (k: nat)
    ensures k <= |table|
    ensures k < |table| ==> table[k].id == id
    ensures forall j :: 0 <= j < k ==> table[j].id != id
  {
    FirstIndex(table, (gear: Gear) => gear.id == id)
  }

  predicate Holds(table: seq<Gear>, id: Uuid) {
    IndexOf(table, id) < |table|
  }

  ghost predicate DistinctIds(table: seq<Gear>) {
    forall i, j :: 0 <= i < j < |table| ==> table[i].id != table[j].id
  }

  /** `count({ freelanceId, isInLoadout: true })`, as the set of the rows it counts. */
  function PinnedIds(table: seq<Gear>, owner: Uuid): set<Uuid> {
    set gear | gear in table && gear.freelanceId == owner && gear.isInLoadout :: gear.id
  }

  // ----- The three writes, as functions of the table -----

  datatype Write = Write(table: seq<Gear>, result: Result)

  /** `id` is the key the database generates. */
  function Added(table: seq<Gear>, role: Option<UserRole>, id: Uuid, freelanceId: Uuid, category: string,
                   details: GearDetails): Write {
    if role != Some(Freelance) then Write(table, Failed(NotFound))
    else
      var gear := Gear(id, freelanceId, category, details, Pending, false);
      Write(table + [gear], Saved(gear))
  }

  /** Why a pin or an unpin is refused, if it is. */
  function LoadoutRefusal(table: seq<Gear>, freelanceId: Uuid, gearId: Uuid, inLoadout: bool): Option<GearError> {
    var k := IndexOf(table, gearId);
    if k == |table| || table[k].freelanceId != freelanceId then Some(NotFound)
    else if inLoadout && table[k].status != Validated then Some(BadRequest)
    else if inLoadout && !table[k].isInLoadout && |PinnedIds(table, freelanceId)| >= LOADOUT_MAX_SLOTS then Some(BadRequest)
    else None
  }

  function LoadoutSet(table: seq<Gear>, freelanceId: Uuid, gearId: Uuid, inLoadout: bool): Write {
    var refusal := LoadoutRefusal(table, freelanceId, gearId, inLoadout);
    if refusal.Some? then Write(table, Failed(refusal.value))
    else
      var k := IndexOf(table, gearId);
      var gear := table[k].(isInLoadout := inLoadout);
      Write(table[k := gear], Saved(gear))
  }

  /** The decision DTO admits Validated and Rejected only. */
  function Reviewed(table: seq<Gear>, gearId: Uuid, decision: GearStatus): Write {
    var k := IndexOf(table, gearId);
    if k == |table| then Write(table, Failed(NotFound))
    else if table[k].status != Pending then Write(table, Failed(Conflict))
    else
      var gear := table[k].(status := decision, isInLoadout := table[k].isInLoadout && decision != Rejected);
      Write(table[k := gear], Saved(gear))
  }

  function ReviewPayload(gear: Gear): seq<(string, string)> {
    [("gearId", Decimal(gear.id)), ("freelanceId", Decimal(gear.freelanceId))]
  }

  function ReviewType(decision: GearStatus): string {
    if decision == Validated then "gear.validated" else "gear.rejected"
  }

  /** Every review that is saved is announced by an event that says which, of which item and whose. */
  lemma ReviewEventSaysWhat(gear: Gear, decision: GearStatus)
    requires decision != Pending
    ensures var fields := EventFields(ReviewType(decision), ReviewPayload(gear));
      && (TypeOf(fields) == Some("gear.validated") <==> decision == Validated)
      && (TypeOf(fields) == Some("gear.rejected") <==> decision == Rejected)
      && FieldOf(fields, "gearId") == Some(Decimal(gear.id)) && FieldOf(fields, "freelanceId") == Some(Decimal(gear.freelanceId))
  {
    var payload := ReviewPayload(gear);
    var fields := EventFields(ReviewType(decision), payload);
    NoSuchKey(payload, "type");
    PublishedFieldIsRead(ReviewType(decision), payload, "type");
    PublishedFieldIsRead(ReviewType(decision), payload, "gearId");
    PublishedFieldIsRead(ReviewType(decision), payload, "freelanceId");
    assert payload[..1] == [("gearId", Decimal(gear.id))] && payload[1] == ("freelanceId", Decimal(gear.freelanceId));
    assert LastValue(payload[..1], "gearId") == Some(Decimal(gear.id));
    assert "gear.validated"[5] != "gear.rejected"[5];
  }

  /** And that the cache consumer acts on. */
  lemma ReviewEventInvalidates(gear: Gear, decision: GearStatus)
    ensures Invalidating(EventFields(ReviewType(decision), ReviewPayload(gear)))
  {
    PublishedTypeIsRead(ReviewType(decision), ReviewPayload(gear));
    NoSuchKey(ReviewPayload(gear), "type");
  }

  /** A refused review publishes nothing. */
  function AfterReview(bus: Bus, result: Result, decision: GearStatus, publish: Reply): Bus {
    if result.Failed? then bus
    else Step(bus, Append(EventFields(ReviewType(decision), ReviewPayload(result.gear)), publish))
  }

  /** A review that is saved puts one invalidating event in flight, unless the append did not run; a refused one
      leaves the bus alone. */
  lemma SavedReviewIsAnnounced(bus: Bus, result: Result, decision: GearStatus, publish: Reply)
    requires Conserved(bus)
    ensures var after := AfterReview(bus, result, decision, publish);
      && InFlight(after) == InFlight(bus) + (if result.Saved? && publish.Ran() then 1 else 0)
      && after.version == bus.version
      && (result.Failed? || !publish.Ran() ==> after == bus)
  {
    if result.Saved? && publish.Ran() {
      ReviewEventInvalidates(result.gear, decision);
      AppendBalances(bus, Append(EventFields(ReviewType(decision), ReviewPayload(result.gear)), publish));
    }
  }

  class GearService {
    var table: seq<Gear>
    var roles: map<Uuid, UserRole>
    const events: EventPublisherService

    constructor (events: EventPublisherService, roles: map<Uuid, UserRole>)
      ensures table == [] && this.roles == roles && this.events == events
    {
      this.events, this.roles, table := events, roles, [];
    }

    method AddGearToLocker(freelanceId: Uuid, id: Uuid, category: string, details: GearDetails) returns (result: Result)
      modifies this`table
      ensures Write(table, result)
           == Added(old(table), if freelanceId in roles then Some(roles[freelanceId]) else None, id, freelanceId, category, details)
    {
      if freelanceId !in roles || roles[freelanceId] != Freelance {
        return Failed(NotFound);
      }
      var gear := Gear(id, freelanceId, category, details, Pending, false);
      table := table + [gear];
      result := Saved(gear);
    }

    method SetLoadout(freelanceId: Uuid, gearId: Uuid, inLoadout: bool) returns (result: Result)
      modifies this`table
      ensures Write(table, result) == LoadoutSet(old(table), freelanceId, gearId, inLoadout)
    {
      var k := IndexOf(table, gearId);
      if k == |table| || table[k].freelanceId != freelanceId {
        return Failed(NotFound);
      }
      var gear := table[k];
      if inLoadout {
        if gear.status != Validated {
          return Failed(BadRequest);
        }
        if !gear.isInLoadout {
          var pinned := |PinnedIds(table, freelanceId)|;
          if pinned >= LOADOUT_MAX_SLOTS {
            return Failed(BadRequest);
          }
        }
      }
      gear := gear.(isInLoadout := inLoadout);
      table := table[k := gear];
      result := Saved(gear);
    }

    method ReviewGear(gearId: Uuid, decision: GearStatus, publish: Reply) returns (result: Result)
      requires decision != Pending
      modifies this`table, events.redis
      ensures Write(table, result) == Reviewed(old(table), gearId, decision)
      ensures forall next: nat ::
        events.redis.View(next) == AfterReview(old(events.redis.View(next)), result, decision, publish)
    {
      var k := IndexOf(table, gearId);
      if k == |table| {
        return Failed(NotFound);
      }
      if table[k].status != Pending {
        return Failed(Conflict);
      }
      var gear := table[k].(status := decision);
      if decision == Rejected {
        gear := gear.(isInLoadout := false);
      }
      table := table[k := gear];
      events.Publish(ReviewType(decision), ReviewPayload(gear), publish);
      result := Saved(gear);
    }
  }

  // ----- What each write does -----

  lemma IndexOfRow(table: seq<Gear>, k: nat)
    requires DistinctIds(table) && k < |table|
    ensures IndexOf(table, table[k].id) == k
  {
  }

  /** A declaration by a freelancer adds one pending, unpinned row of theirs at the end. */
  lemma DeclarationAdds(table: seq<Gear>, role: Option<UserRole>, id: Uuid, freelanceId: Uuid, category: string, details: GearDetails)
    ensures var after := Added(table, role, id, freelanceId, category, details);
      if role == Some(Freelance) then
        && after.table == table + [Gear(id, freelanceId, category, details, Pending, false)]
        && after.result == Saved(after.table[|table|])
      else after == Write(table, Failed(NotFound))
  {
  }

  /** A review of a pending row gives it the decision, and a rejected one loses its pin; it is refused exactly
      for an unknown id or a row decided before. No other row changes. */
  lemma ReviewDecides(table: seq<Gear>, k: nat, decision: GearStatus)
    requires DistinctIds(table) && k < |table| && decision != Pending
    ensures var after := Reviewed(table, table[k].id, decision);
      if table[k].status == Pending then
        && after.result == Saved(after.table[k]) && |after.table| == |table|
        && after.table[k].status == decision && (decision == Rejected ==> !after.table[k].isInLoadout)
        && after.table[k].(status := Pending, isInLoadout := table[k].isInLoadout) == table[k]
        && forall j :: 0 <= j < |table| && j != k ==> after.table[j] == table[j]
      else after == Write(table, Failed(Conflict))
  {
    IndexOfRow(table, k);
  }

  lemma UnknownGearIsNotFound(table: seq<Gear>, gearId: Uuid, freelanceId: Uuid, decision: GearStatus, inLoadout: bool)
    requires forall j :: 0 <= j < |table| ==> table[j].id != gearId
    ensures Reviewed(table, gearId, decision) == Write(table, Failed(NotFound))
    ensures LoadoutSet(table, freelanceId, gearId, inLoadout) == Write(table, Failed(NotFound))
  {
  }

  /** Unpinning an item of one's own always works and leaves it unpinned; pinning works, and leaves it pinned,
      exactly for a validated one that is pinned already or finds fewer than four pinned. Nothing else changes, and
      nobody else's item is found. */
  lemma LoadoutDoes(table: seq<Gear>, k: nat, freelanceId: Uuid, inLoadout: bool)
    requires DistinctIds(table) && k < |table|
    ensures var after := LoadoutSet(table, freelanceId, table[k].id, inLoadout);
      if table[k].freelanceId != freelanceId then after == Write(table, Failed(NotFound))
      else if !inLoadout || (table[k].status == Validated && (table[k].isInLoadout || |PinnedIds(table, freelanceId)| < 4)) then
        && after.result == Saved(after.table[k]) && |after.table| == |table|
        && after.table[k].isInLoadout == inLoadout && after.table[k].(isInLoadout := table[k].isInLoadout) == table[k]
        && forall j :: 0 <= j < |table| && j != k ==> after.table[j] == table[j]
      else after == Write(table, Failed(BadRequest))
  {
    IndexOfRow(table, k);
  }

  /** Unpinning undoes a pin, and then the same pin works again. */
  lemma UnpinUndoesPin(table: seq<Gear>, k: nat)
    requires DistinctIds(table) && k < |table| && !table[k].isInLoadout
    requires var (owner, id) := (table[k].freelanceId, table[k].id); LoadoutSet(table, owner, id, true).result.Saved?
    ensures var (owner, id) := (table[k].freelanceId, table[k].id);
      LoadoutSet(LoadoutSet(table, owner, id, true).table, owner, id, false).table == table
  {
    var (owner, id) := (table[k].freelanceId, table[k].id);
    IndexOfRow(table, k);
    var pinned := LoadoutSet(table, owner, id, true).table;
    assert pinned == table[k := table[k].(isInLoadout := true)];
    IndexOfRow(pinned, k);
  }

  // ----- Runs of the locker -----

  datatype GearEvent =
    | Add(role: Option<UserRole>, id: Uuid, freelanceId: Uuid, category: string, details: GearDetails)
    | Pin(freelanceId: Uuid, gearId: Uuid, inLoadout: bool)
    | Review(gearId: Uuid, decision: GearStatus)

  /** The database never generates a key twice; the decision DTO never lets Pending through. */
  function Apply(table: seq<Gear>, event: GearEvent): seq<Gear> {
    match event
    case Add(role, id, freelanceId, category, details) =>
      if Holds(table, id) then table else Added(table, role, id, freelanceId, category, details).table
    case Pin(freelanceId, gearId, inLoadout) => LoadoutSet(table, freelanceId, gearId, inLoadout).table
    case Review(gearId, decision) =>
      if decision == Pending then table else Reviewed(table, gearId, decision).table
  }

  function Run(table: seq<Gear>, events: seq<GearEvent>): seq<Gear> {
    Fold(Apply, table, events)
  }

  ghost predicate PinnedAreValidated(table: seq<Gear>) {
    forall k :: 0 <= k < |table| ==> (table[k].isInLoadout ==> table[k].status == Validated)
  }

  ghost predicate LoadoutFits(table: seq<Gear>, owner: Uuid) {
    |PinnedIds(table, owner)| <= LOADOUT_MAX_SLOTS
  }

  ghost predicate LoadoutsFit(table: seq<Gear>) {
    forall owner :: LoadoutFits(table, owner)
  }

  ghost predicate Sound(table: seq<Gear>) {
    DistinctIds(table) && PinnedAreValidated(table) && LoadoutsFit(table)
  }

  /** What one write may do to the pinned set: nothing, add the item it pins, or only shrink it. */
  lemma PinnedAfterUpdate(table: seq<Gear>, k: nat, gear: Gear, owner: Uuid)
    requires DistinctIds(table) && k < |table|
    requires gear.id == table[k].id && gear.freelanceId == table[k].freelanceId
    ensures PinnedIds(table[k := gear], owner)
         == if gear.freelanceId != owner then PinnedIds(table, owner)
            else if gear.isInLoadout then PinnedIds(table, owner) + {gear.id}
            else PinnedIds(table, owner) - {gear.id}
  {
    var table' := table[k := gear];
    var before, after := PinnedIds(table, owner), PinnedIds(table', owner);
    forall id | id != gear.id ensures id in before <==> id in after {
      if id in before {
        var j :| 0 <= j < |table| && table[j].id == id && table[j].freelanceId == owner && table[j].isInLoadout;
        assert table'[j] == table[j];
        assert table'[j] in table';
      }
      if id in after {
        var j :| 0 <= j < |table'| && table'[j].id == id && table'[j].freelanceId == owner && table'[j].isInLoadout;
        assert table'[j] == table[j];
        assert table[j] in table;
      }
    }
    assert table'[k] in table' && table[k] in table;
    assert gear.id in after <==> gear.freelanceId == owner && gear.isInLoadout;
    assert gear.id in before ==> table[k].freelanceId == owner;
  }

  lemma PinnedAfterAppend(table: seq<Gear>, gear: Gear, owner: Uuid)
    requires !gear.isInLoadout
    ensures PinnedIds(table + [gear], owner) == PinnedIds(table, owner)
  {
    assert forall g :: g in table + [gear] <==> g in table || g == gear;
  }

  lemma AlreadyPinned(table: seq<Gear>, k: nat)
    requires k < |table| && table[k].isInLoadout
    ensures table[k].id in PinnedIds(table, table[k].freelanceId)
  {
    assert table[k] in table;
  }

  lemma UpdateKeepsSound(table: seq<Gear>, k: nat, gear: Gear)
    requires Sound(table) && k < |table|
    requires gear.id == table[k].id && gear.freelanceId == table[k].freelanceId
    requires gear.isInLoadout ==> gear.status == Validated
    requires gear.isInLoadout && !table[k].isInLoadout ==> |PinnedIds(table, gear.freelanceId)| < LOADOUT_MAX_SLOTS
    ensures Sound(table[k := gear])
  {
    var table' := table[k := gear];
    forall owner ensures LoadoutFits(table', owner) {
      assert LoadoutFits(table, owner);
      PinnedAfterUpdate(table, k, gear, owner);
      if table[k].isInLoadout {
        AlreadyPinned(table, k);
      }
    }
  }

  lemma AppendKeepsSound(table: seq<Gear>, gear: Gear)
    requires Sound(table) && !Holds(table, gear.id) && !gear.isInLoadout
    ensures Sound(table + [gear])
  {
    var table' := table + [gear];
    forall owner ensures LoadoutFits(table', owner) {
      assert LoadoutFits(table, owner);
      PinnedAfterAppend(table, gear, owner);
    }
  }

  lemma ApplyKeepsSound(table: seq<Gear>, event: GearEvent)
    requires Sound(table)
    ensures Sound(Apply(table, event))
  {
    var table' := Apply(table, event);
    if table' != table {
      match event
      case Add(role, id, freelanceId, category, details) => AppendKeepsSound(table, table'[|table|]);
      case Pin(freelanceId, gearId, inLoadout) =>
        var k := IndexOf(table, gearId);
        UpdateKeepsSound(table, k, table'[k]);
      case Review(gearId, decision) =>
        var k := IndexOf(table, gearId);
        UpdateKeepsSound(table, k, table'[k]);
    }
  }

  /** In every run: pinned items are validated, and no freelancer has more than four of them. */
  lemma {:induction false} RunIsSound(events: seq<GearEvent>)
    ensures Sound(Run([], events))
  {
    if events != [] {
      RunIsSound(events[..|events| - 1]);
      ApplyKeepsSound(Run([], events[..|events| - 1]), events[|events| - 1]);
    }
  }

  /** Rows are never dropped or moved, and a row that has left Pending keeps its status, its owner, its
      category and its key: over a whole run a status changes at most once. */
  ghost predicate Settles(earlier: seq<Gear>, later: seq<Gear>) {
    && |earlier| <= |later|
    && (forall k :: 0 <= k < |earlier| ==>
          && later[k].(status := Pending, isInLoadout := false) == earlier[k].(status := Pending, isInLoadout := false)
          && (earlier[k].status != Pending ==> later[k].status == earlier[k].status))
  }

  lemma ApplySettles(table: seq<Gear>, event: GearEvent)
    ensures Settles(table, Apply(table, event))
  {
  }

  lemma {:induction false} RunSettles(table: seq<Gear>, events: seq<GearEvent>)
    ensures Settles(table, Run(table, events))
  {
    if events != [] {
      RunSettles(table, events[..|events| - 1]);
      ApplySettles(Run(table, events[..|events| - 1]), events[|events| - 1]);
    }
  }

  /** Three moments of one run: if a row's status differs between the first two, it does not change
      between the last two. */
  lemma StatusChangesAtMostOnce(first: seq<GearEvent>, second: seq<GearEvent>, third: seq<GearEvent>, k: nat)
    requires k < |Run([], first)|
    ensures var (a, b, c) := (Run([], first), Run([], first + second), Run([], first + second + third));
      && k < |b| && k < |c|
      && (a[k].status != b[k].status ==> a[k].status == Pending && c[k].status == b[k].status)
  {
    FoldSplit(Apply, [], first, second);
    FoldSplit(Apply, [], first + second, third);
    RunSettles(Run([], first), second);
    RunSettles(Run([], first + second), third);
  }

  // ----- Overlapping pins -----

  /** A pin that has passed its checks and not yet saved. */
  datatype Call = Call(freelanceId: Uuid, gearId: Uuid)

  datatype Lockers = Lockers(table: seq<Gear>, calls: seq<Call>)

  datatype LockerEvent =
    | Atomic(event: GearEvent)
    | BeginPin(freelanceId: Uuid, gearId: Uuid)
    | SavePin(call: nat)

  function CallsOf(calls: seq<Call>, owner: Uuid): nat {
    if calls == [] then 0 else (if calls[0].freelanceId == owner then 1 else 0) + CallsOf(calls[1..], owner)
  }

  /** At most `overlap` pins of one freelancer are between their count and their save; a pin that
      nothing overlaps is a BeginPin followed by its SavePin. */
  function StepLockers(overlap: nat, s: Lockers, event: LockerEvent): Lockers {
    match event
    case Atomic(e) => if e.Pin? && e.inLoadout then s else s.(table := Apply(s.table, e))
    case BeginPin(freelanceId, gearId) =>
      if LoadoutRefusal(s.table, freelanceId, gearId, true).Some? || CallsOf(s.calls, freelanceId) >= overlap then s
      else s.(calls := s.calls + [Call(freelanceId, gearId)])
    case SavePin(call) =>
      if call >= |s.calls| || !Holds(s.table, s.calls[call].gearId) then s
      else
        var k := IndexOf(s.table, s.calls[call].gearId);
        Lockers(s.table[k := s.table[k].(isInLoadout := true)], s.calls[..call] + s.calls[call + 1..])
  }

  function RunLockers(overlap: nat, table: seq<Gear>, events: seq<LockerEvent>): Lockers {
    if events == [] then Lockers(table, [])
    else StepLockers(overlap, RunLockers(overlap, table, events[..|events| - 1]), events[|events| - 1])
  }

  function Targets(calls: seq<Call>, owner: Uuid): set<Uuid> {
    set call | call in calls && call.freelanceId == owner :: call.gearId
  }

  /** The items of one freelancer that are pinned or about to be. */
  function Claimed(s: Lockers, owner: Uuid): set<Uuid> {
    PinnedIds(s.table, owner) + Targets(s.calls, owner)
  }

  ghost predicate ClaimsFit(overlap: nat, s: Lockers, owner: Uuid) {
    |Claimed(s, owner)| <= LOADOUT_MAX_SLOTS - 1 + overlap && CallsOf(s.calls, owner) <= overlap
  }

  ghost predicate CallIsValid(table: seq<Gear>, call: Call) {
    && Holds(table, call.gearId)
    && table[IndexOf(table, call.gearId)].freelanceId == call.freelanceId
    && table[IndexOf(table, call.gearId)].status == Validated
  }

  ghost predicate LockersSound(overlap: nat, s: Lockers) {
    && DistinctIds(s.table)
    && PinnedAreValidated(s.table)
    && (forall k :: 0 <= k < |s.calls| ==> CallIsValid(s.table, s.calls[k]))
    && (forall owner :: ClaimsFit(overlap, s, owner))
  }

  lemma {:induction false} CallsOfSplit(xs: seq<Call>, ys: seq<Call>, owner: Uuid)
    ensures CallsOf(xs + ys, owner) == CallsOf(xs, owner) + CallsOf(ys, owner)
  {
    if xs == [] {
      assert xs + ys == ys;
    } else {
      assert (xs + ys)[1..] == xs[1..] + ys;
      CallsOfSplit(xs[1..], ys, owner);
    }
  }

  lemma {:induction false} FewTargets(calls: seq<Call>, owner: Uuid)
    ensures |Targets(calls, owner)| <= CallsOf(calls, owner)
  {
    if calls != [] {
      FewTargets(calls[1..], owner);
      assert calls == [calls[0]] + calls[1..];
      var rest := Targets(calls[1..], owner);
      assert Targets(calls, owner) == if calls[0].freelanceId == owner then rest + {calls[0].gearId} else rest;
    }
  }

  lemma UnionSize(pinned: set<Uuid>, targets: set<Uuid>)
    ensures |pinned + targets| <= |pinned| + |targets|
  {
    assert pinned + targets == pinned + (targets - pinned);
    SubsetSize(targets - pinned, targets);
  }

  lemma TargetsAfter(calls: seq<Call>, call: Call, owner: Uuid)
    ensures Targets(calls + [call], owner) == Targets(calls, owner) + if call.freelanceId == owner then {call.gearId} else {}
  {
    assert forall c :: c in calls + [call] <==> c in calls || c == call;
  }

  lemma BeginKeepsClaims(overlap: nat, s: Lockers, call: Call, owner: Uuid)
    requires ClaimsFit(overlap, s, owner)
    requires LoadoutRefusal(s.table, call.freelanceId, call.gearId, true).None?
    requires CallsOf(s.calls, call.freelanceId) < overlap
    ensures ClaimsFit(overlap, s.(calls := s.calls + [call]), owner)
  {
    var calls := s.calls + [call];
    CallsOfSplit(s.calls, [call], owner);
    TargetsAfter(s.calls, call, owner);
    if call.freelanceId == owner {
      var k := IndexOf(s.table, call.gearId);
      if s.table[k].isInLoadout {
        AlreadyPinned(s.table, k);
        assert Claimed(s.(calls := calls), owner) == Claimed(s, owner);
      } else {
        FewTargets(calls, owner);
        UnionSize(PinnedIds(s.table, owner), Targets(calls, owner));
      }
    }
  }

  lemma SaveKeepsClaims(overlap: nat, s: Lockers, call: nat, owner: Uuid)
    requires LockersSound(overlap, s) && call < |s.calls|
    ensures ClaimsFit(overlap, StepLockers(overlap, s, SavePin(call)), owner)
  {
    var s' := StepLockers(overlap, s, SavePin(call));
    var c := s.calls[call];
    assert CallIsValid(s.table, c);
    var k := IndexOf(s.table, c.gearId);
    PinnedAfterUpdate(s.table, k, s.table[k].(isInLoadout := true), owner);
    assert s.calls == s.calls[..call] + [c] + s.calls[call + 1..];
    CallsOfSplit(s.calls[..call] + [c], s.calls[call + 1..], owner);
    CallsOfSplit(s.calls[..call], [c], owner);
    CallsOfSplit(s.calls[..call], s.calls[call + 1..], owner);
    assert forall x :: x in s'.calls ==> x in s.calls;
    assert c in s.calls;
    assert Claimed(s', owner) <= Claimed(s, owner);
    SubsetSize(Claimed(s', owner), Claimed(s, owner));
    assert ClaimsFit(overlap, s, owner);
  }

  lemma AtomicShrinksPinned(table: seq<Gear>, event: GearEvent, owner: Uuid)
    requires DistinctIds(table) && PinnedAreValidated(table)
    requires event.Pin? ==> !event.inLoadout
    ensures PinnedIds(Apply(table, event), owner) <= PinnedIds(table, owner)
    ensures DistinctIds(Apply(table, event)) && PinnedAreValidated(Apply(table, event))
  {
    var table' := Apply(table, event);
    if table' != table {
      match event
      case Add(_, _, _, _, _) => PinnedAfterAppend(table, table'[|table|], owner);
      case Pin(_, gearId, _) => PinnedAfterUpdate(table, IndexOf(table, gearId), table'[IndexOf(table, gearId)], owner);
      case Review(gearId, _) => PinnedAfterUpdate(table, IndexOf(table, gearId), table'[IndexOf(table, gearId)], owner);
    }
  }

  /** The first row with an id stays where it is, through any change that keeps the ids. */
  lemma {:induction false} IndexOfStable(table: seq<Gear>, table': seq<Gear>, id: Uuid)
    requires |table| <= |table'|
    requires forall k :: 0 <= k < |table| ==> table'[k].id == table[k].id
    requires Holds(table, id)
    ensures IndexOf(table', id) == IndexOf(table, id)
  {
    var k := IndexOf(table, id);
    var k' := IndexOf(table', id);
    assert table'[k].id == table[k].id == id;
    assert k' <= k;
    assert table'[k'].id == table[k'].id;
  }

  lemma CallStaysValid(table: seq<Gear>, table': seq<Gear>, call: Call)
    requires CallIsValid(table, call) && Settles(table, table')
    ensures CallIsValid(table', call)
  {
    forall k | 0 <= k < |table| ensures table'[k].id == table[k].id {
      assert table'[k].(status := Pending, isInLoadout := false).id == table[k].id;
    }
    IndexOfStable(table, table', call.gearId);
    var k := IndexOf(table, call.gearId);
    assert table'[k].(status := Pending, isInLoadout := false).freelanceId == table[k].freelanceId;
  }

  lemma StepKeepsLockersSound(overlap: nat, s: Lockers, event: LockerEvent)
    requires LockersSound(overlap, s)
    ensures LockersSound(overlap, StepLockers(overlap, s, event))
  {
    var s' := StepLockers(overlap, s, event);
    if s' != s {
      match event
      case Atomic(e) =>
        AtomicShrinksPinned(s.table, e, 0);
        ApplySettles(s.table, e);
        forall k | 0 <= k < |s'.calls| ensures CallIsValid(s'.table, s'.calls[k]) {
          CallStaysValid(s.table, s'.table, s.calls[k]);
        }
        forall owner ensures ClaimsFit(overlap, s', owner) {
          assert ClaimsFit(overlap, s, owner);
          AtomicShrinksPinned(s.table, e, owner);
          SubsetSize(Claimed(s', owner), Claimed(s, owner));
        }
      case BeginPin(freelanceId, gearId) =>
        assert s'.table == s.table;
        forall owner ensures ClaimsFit(overlap, s', owner) {
          assert ClaimsFit(overlap, s, owner);
          BeginKeepsClaims(overlap, s, Call(freelanceId, gearId), owner);
        }
      case SavePin(call) =>
        assert CallIsValid(s.table, s.calls[call]);
        assert Settles(s.table, s'.table);
        forall k | 0 <= k < |s'.calls| ensures CallIsValid(s'.table, s'.calls[k]) {
          var j := if k < call then k else k + 1;
          assert s'.calls[k] == s.calls[j];
          CallStaysValid(s.table, s'.table, s.calls[j]);
        }
        forall owner ensures ClaimsFit(overlap, s', owner) {
          SaveKeepsClaims(overlap, s, call, owner);
        }
    }
  }

  /** With at most `overlap` pins of one freelancer in flight at a time, the count of four can be passed,
      but by no more than the overlap allows; pinned items are validated all the same. */
  lemma {:induction false} OverlappingPinsBound(overlap: nat, table: seq<Gear>, events: seq<LockerEvent>, owner: Uuid)
    requires overlap >= 1 && Sound(table)
    ensures LockersSound(overlap, RunLockers(overlap, table, events))
    ensures |PinnedIds(RunLockers(overlap, table, events).table, owner)| <= LOADOUT_MAX_SLOTS - 1 + overlap
  {
    if events == [] {
      forall who ensures ClaimsFit(overlap, Lockers(table, []), who) {
        assert LoadoutFits(table, who);
        assert Claimed(Lockers(table, []), who) == PinnedIds(table, who);
      }
    } else {
      OverlappingPinsBound(overlap, table, events[..|events| - 1], owner);
      StepKeepsLockersSound(overlap, RunLockers(overlap, table, events[..|events| - 1]), events[|events| - 1]);
    }
    var s := RunLockers(overlap, table, events);
    assert ClaimsFit(overlap, s, owner);
    SubsetSize(PinnedIds(s.table, owner), Claimed(s, owner));
  }

  // ----- The bound is reached -----

  lemma RunLockersOne(overlap: nat, table: seq<Gear>, events: seq<LockerEvent>, event: LockerEvent)
    ensures RunLockers(overlap, table, events + [event]) == StepLockers(overlap, RunLockers(overlap, table, events), event)
  {
    assert (events + [event])[..|events|] == events;
  }

  predicate PinnableRow(gear: Gear, owner: Uuid) {
    gear.freelanceId == owner && gear.status == Validated && !gear.isInLoadout
  }

  /** `rows` are different validated unpinned rows of one freelancer. */
  ghost predicate Pinnable(table: seq<Gear>, owner: Uuid, rows: seq<nat>) {
    && (forall i :: 0 <= i < |rows| ==> rows[i] < |table| && PinnableRow(table[rows[i]], owner))
    && (forall i, j :: 0 <= i < j < |rows| ==> rows[i] != rows[j])
  }

  function CallsFor(table: seq<Gear>, owner: Uuid, rows: seq<nat>): seq<Call>
    requires forall i :: 0 <= i < |rows| ==> rows[i] < |table|
  {
    seq(|rows|, i requires 0 <= i < |rows| => Call(owner, table[rows[i]].id))
  }

  function Begins(table: seq<Gear>, owner: Uuid, rows: seq<nat>): seq<LockerEvent>
    requires forall i :: 0 <= i < |rows| ==> rows[i] < |table|
  {
    if rows == [] then []
    else Begins(table, owner, rows[..|rows| - 1]) + [BeginPin(owner, table[rows[|rows| - 1]].id)]
  }

  function Saves(n: nat): seq<LockerEvent> {
    Repeat(SavePin(0), n)
  }

  /** The rows pinned, one after another. */
  function PinnedRows(table: seq<Gear>, rows: seq<nat>): (t: seq<Gear>)
    requires forall i :: 0 <= i < |rows| ==> rows[i] < |table|
    ensures |t| == |table|
    ensures forall k :: 0 <= k < |table| ==> t[k] == if k in rows then table[k].(isInLoadout := true) else table[k]
  {
    if rows == [] then table
    else
      var last := rows[|rows| - 1];
      var t := PinnedRows(table, rows[..|rows| - 1]);
      t[last := t[last].(isInLoadout := true)]
  }

  lemma NotPinned(table: seq<Gear>, k: nat)
    requires DistinctIds(table) && k < |table| && !table[k].isInLoadout
    ensures table[k].id !in PinnedIds(table, table[k].freelanceId)
  {
  }

  lemma {:induction false} EachPinCounts(table: seq<Gear>, owner: Uuid, rows: seq<nat>)
    requires DistinctIds(table) && Pinnable(table, owner, rows)
    ensures |PinnedIds(PinnedRows(table, rows), owner)| == |PinnedIds(table, owner)| + |rows|
  {
    if rows != [] {
      var (fewer, last) := (rows[..|rows| - 1], rows[|rows| - 1]);
      var t := PinnedRows(table, fewer);
      EachPinCounts(table, owner, fewer);
      assert last !in fewer && t[last] == table[last];
      PinnedAfterUpdate(t, last, t[last].(isInLoadout := true), owner);
      NotPinned(t, last);
    }
  }

  lemma {:induction false} CallsForCount(table: seq<Gear>, owner: Uuid, rows: seq<nat>)
    requires forall i :: 0 <= i < |rows| ==> rows[i] < |table|
    ensures CallsOf(CallsFor(table, owner, rows), owner) == |rows|
  {
    if rows != [] {
      var calls := CallsFor(table, owner, rows);
      CallsForCount(table, owner, rows[1..]);
      assert calls[1..] == CallsFor(table, owner, rows[1..]);
    }
  }

  lemma OneBegins(overlap: nat, table: seq<Gear>, owner: Uuid, rows: seq<nat>)
    requires DistinctIds(table) && Pinnable(table, owner, rows) && 1 <= |rows| <= overlap
    requires |PinnedIds(table, owner)| < LOADOUT_MAX_SLOTS
    ensures var (fewer, last) := (rows[..|rows| - 1], rows[|rows| - 1]);
      StepLockers(overlap, Lockers(table, CallsFor(table, owner, fewer)), BeginPin(owner, table[last].id))
      == Lockers(table, CallsFor(table, owner, rows))
  {
    var (fewer, last) := (rows[..|rows| - 1], rows[|rows| - 1]);
    CallsForCount(table, owner, fewer);
    assert PinnableRow(table[rows[|rows| - 1]], owner);
    assert IndexOf(table, table[last].id) == last;
    assert CallsFor(table, owner, rows) == CallsFor(table, owner, fewer) + [Call(owner, table[last].id)];
  }

  lemma {:induction false} AllBegin(overlap: nat, table: seq<Gear>, owner: Uuid, rows: seq<nat>)
    requires DistinctIds(table) && Pinnable(table, owner, rows) && |rows| <= overlap
    requires |PinnedIds(table, owner)| < LOADOUT_MAX_SLOTS
    ensures RunLockers(overlap, table, Begins(table, owner, rows)) == Lockers(table, CallsFor(table, owner, rows))
  {
    if rows != [] {
      var (fewer, last) := (rows[..|rows| - 1], rows[|rows| - 1]);
      AllBegin(overlap, table, owner, fewer);
      OneBegins(overlap, table, owner, rows);
      RunLockersOne(overlap, table, Begins(table, owner, fewer), BeginPin(owner, table[last].id));
    }
  }

  lemma SaveFirst(overlap: nat, s: Lockers, k: nat)
    requires DistinctIds(s.table) && k < |s.table| && s.calls != [] && s.calls[0].gearId == s.table[k].id
    ensures StepLockers(overlap, s, SavePin(0)) == Lockers(s.table[k := s.table[k].(isInLoadout := true)], s.calls[1..])
  {
    assert IndexOf(s.table, s.table[k].id) == k;
    assert s.calls[..0] + s.calls[1..] == s.calls[1..];
  }

  lemma OneSaves(overlap: nat, table: seq<Gear>, owner: Uuid, rows: seq<nat>, s: Lockers, n: nat)
    requires DistinctIds(table) && Pinnable(table, owner, rows) && 1 <= n <= |rows|
    requires s == Lockers(PinnedRows(table, rows[..n - 1]), CallsFor(table, owner, rows)[n - 1..])
    ensures StepLockers(overlap, s, SavePin(0)) == Lockers(PinnedRows(table, rows[..n]), CallsFor(table, owner, rows)[n..])
  {
    assert s.table[rows[n - 1]].id == table[rows[n - 1]].id;
    SaveFirst(overlap, s, rows[n - 1]);
    assert rows[..n][..n - 1] == rows[..n - 1] && rows[..n][n - 1] == rows[n - 1];
  }

  lemma {:induction false} AllSave(overlap: nat, table: seq<Gear>, events: seq<LockerEvent>, owner: Uuid, rows: seq<nat>, n: nat)
    requires DistinctIds(table) && Pinnable(table, owner, rows) && n <= |rows|
    requires RunLockers(overlap, table, events) == Lockers(table, CallsFor(table, owner, rows))
    ensures RunLockers(overlap, table, events + Saves(n))
         == Lockers(PinnedRows(table, rows[..n]), CallsFor(table, owner, rows)[n..])
  {
    if n == 0 {
      RepeatNone(events, SavePin(0));
    } else {
      AllSave(overlap, table, events, owner, rows, n - 1);
      var before := RunLockers(overlap, table, events + Saves(n - 1));
      RunLockersOne(overlap, table, events + Saves(n - 1), SavePin(0));
      RepeatLast(events, SavePin(0), n);
      OneSaves(overlap, table, owner, rows, before, n);
    }
  }

  /** For every overlap: from three pinned items, that many more can be pinned at once. */
  lemma OverlappingPinsReachTheBound(overlap: nat, table: seq<Gear>, owner: Uuid, rows: seq<nat>)
    requires Sound(table) && Pinnable(table, owner, rows) && |rows| == overlap
    requires |PinnedIds(table, owner)| == LOADOUT_MAX_SLOTS - 1
    ensures |PinnedIds(RunLockers(overlap, table, Begins(table, owner, rows) + Saves(overlap)).table, owner)|
         == LOADOUT_MAX_SLOTS - 1 + overlap
  {
    AllBegin(overlap, table, owner, rows);
    AllSave(overlap, table, Begins(table, owner, rows), owner, rows, overlap);
    assert rows[..overlap] == rows;
    EachPinCounts(table, owner, rows);
  }

  /** One freelancer with validated items, of which the first `pinned` are pinned. */
  function FullLocker(owner: Uuid, pinned: nat, size: nat): seq<Gear> {
    seq(size, k requires 0 <= k < size => Gear(k, owner, "DRONE", GearDetails("", "", ""), Validated, k < pinned))
  }

  lemma FullLockerIsSound(owner: Uuid, pinned: nat, size: nat)
    requires pinned <= LOADOUT_MAX_SLOTS && pinned <= size
    ensures Sound(FullLocker(owner, pinned, size)) && |PinnedIds(FullLocker(owner, pinned, size), owner)| == pinned
  {
    var table := FullLocker(owner, pinned, size);
    var firstIds := EventBus.Range(0, pinned);
    EventBus.RangeSize(pinned);
    forall id ensures id in PinnedIds(table, owner) <==> id in firstIds {
      if id in firstIds {
        assert table[id] in table && table[id].id == id;
      }
    }
    assert PinnedIds(table, owner) == firstIds;
    forall who ensures LoadoutFits(table, who) {
      SubsetSize(PinnedIds(table, who), firstIds);
    }
  }

  /** The limit of four holds over every run if and only if pins of one freelancer never overlap. */
  lemma FourIffNoOverlap(overlap: nat)
    requires overlap >= 1
    ensures overlap == 1 <==>
      forall table: seq<Gear>, events: seq<LockerEvent>, owner: Uuid {:trigger PinnedIds(RunLockers(overlap, table, events).table, owner)} ::
        Sound(table) ==> |PinnedIds(RunLockers(overlap, table, events).table, owner)| <= LOADOUT_MAX_SLOTS
  {
    if overlap == 1 {
      forall table: seq<Gear>, events: seq<LockerEvent>, owner: Uuid | Sound(table)
        ensures |PinnedIds(RunLockers(overlap, table, events).table, owner)| <= LOADOUT_MAX_SLOTS
      {
        OverlappingPinsBound(overlap, table, events, owner);
      }
    } else {
      var pinned := LOADOUT_MAX_SLOTS - 1;
      var table := FullLocker(0, pinned, pinned + overlap);
      var rows := seq(overlap, i requires 0 <= i < overlap => pinned + i);
      FullLockerIsSound(0, pinned, pinned + overlap);
      OverlappingPinsReachTheBound(overlap, table, 0, rows);
    }
  }
}
