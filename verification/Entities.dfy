/** The PostgreSQL rows that both services read (backend-core/src/gear/gear.entity.ts and
    backend-core/src/users/user.entity.ts). */
module Entities {
  import opened Basics

  datatype UserRole = Freelance | Recruiter | Admin

  datatype GearStatus = Pending | Validated | Rejected

  datatype GearDetails = GearDetails(brand: string, model: string, serialNumber: string)

  datatype Gear = Gear(
    id: Uuid,
    freelanceId: Uuid,
    category: string,
    details: GearDetails,
    status: GearStatus,
    isInLoadout: bool)

  /** A PostGIS point: longitude first. */
  datatype Point = Point(longitude: real, latitude: real)

  datatype User = User(id: Uuid, role: UserRole, location: Option<Point>)

  /** The user table in primary-key order, and the gear table in insertion order. */
  datatype Database = Database(users: seq<User>, gear: seq<Gear>)

  ghost predicate AscendingUsers(users: seq<User>) {
    forall i, j :: 0 <= i < j < |users| ==> users[i].id < users[j].id
  }

  /** The categories of the validated items of one freelancer, in table order. */
  function ValidatedCategories(gear: seq<Gear>, owner: Uuid): seq<string> {
    if gear == [] then []
    else
      (if gear[0].freelanceId == owner && gear[0].status == Validated then [gear[0].category] else [])
      + ValidatedCategories(gear[1..], owner)
  }

  lemma {:induction false} ValidatedCategoriesSplit(xs: seq<Gear>, ys: seq<Gear>, owner: Uuid)
    ensures ValidatedCategories(xs + ys, owner)
         == ValidatedCategories(xs, owner) + ValidatedCategories(ys, owner)
  {
    if xs == [] {
      assert xs + ys == ys;
    } else {
      assert (xs + ys)[1..] == xs[1..] + ys;
      ValidatedCategoriesSplit(xs[1..], ys, owner);
    }
  }

  /** Replacing one row changes the list of its owner by that row's contribution, and no other. */
  lemma ValidatedCategoriesUpdate(gear: seq<Gear>, i: nat, row: Gear, owner: Uuid)
    requires i < |gear|
    ensures ValidatedCategories(gear, owner)
         == ValidatedCategories(gear[..i], owner) + ValidatedCategories([gear[i]], owner)
            + ValidatedCategories(gear[i + 1..], owner)
    ensures ValidatedCategories(gear[i := row], owner)
         == ValidatedCategories(gear[..i], owner) + ValidatedCategories([row], owner)
            + ValidatedCategories(gear[i + 1..], owner)
  {
    assert gear == gear[..i] + [gear[i]] + gear[i + 1..];
    assert gear[i := row] == gear[..i] + [row] + gear[i + 1..];
    ValidatedCategoriesSplit(gear[..i] + [gear[i]], gear[i + 1..], owner);
    ValidatedCategoriesSplit(gear[..i], [gear[i]], owner);
    ValidatedCategoriesSplit(gear[..i] + [row], gear[i + 1..], owner);
    ValidatedCategoriesSplit(gear[..i], [row], owner);
  }

  /** Validating a pending row hands its owner one more category, and nobody else anything. */
  lemma ValidatingAddsCategory(gear: seq<Gear>, i: nat, owner: Uuid)
    requires i < |gear| && gear[i].status == Pending
    ensures var gear' := gear[i := gear[i].(status := Validated)];
      if owner == gear[i].freelanceId
      then multiset(ValidatedCategories(gear', owner)) == multiset(ValidatedCategories(gear, owner)) + multiset{gear[i].category}
      else ValidatedCategories(gear', owner) == ValidatedCategories(gear, owner)
  {
    ValidatedCategoriesUpdate(gear, i, gear[i].(status := Validated), owner);
  }
}
