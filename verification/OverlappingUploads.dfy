/** Uploads that overlap: the search for the same brevet on another account and the insert are separate steps
    (backend-core/src/certifications/certification.service.ts). */
module OverlappingUploads {
  import opened Basics
  import opened Certifications

  /** An upload that has found no duplicate and not yet inserted its row. */
  datatype Claim = Claim(freelanceId: Uuid, upload: Upload)

  datatype Uploads = Uploads(certs: seq<Certification>, inFlight: seq<Claim>)

  datatype Event =
    | Search(freelanceId: Uuid, upload: Upload)
    | Insert(k: nat, id: Uuid)
    | Fail(k: nat)
    | Decide(k: nat, decision: CertificationStatus)

  predicate IsFor(claim: Claim, kind: string, number: string) {
    claim.upload.kind == kind && claim.upload.number == number
  }

  function CountFor(claims: seq<Claim>, kind: string, number: string): nat {
    if claims == [] then 0 else (if IsFor(claims[0], kind, number) then 1 else 0) + CountFor(claims[1..], kind, number)
  }

  /** At most `overlap` uploads of one brevet are between their search and their insert. */
  function Step(overlap: nat, config: Config, s: Uploads, event: Event): Uploads {
    match event
    case Search(freelanceId, upload) =>
      if UploadRefusal(config, s.certs, freelanceId, upload).Some? || CountFor(s.inFlight, upload.kind, upload.number) >= overlap then s
      else s.(inFlight := s.inFlight + [Claim(freelanceId, upload)])
    case Insert(k, id) =>
      if k >= |s.inFlight| then s
      else Uploads(s.certs + [NewCertification(s.inFlight[k].freelanceId, id, s.inFlight[k].upload)], Without(s.inFlight, k))
    case Fail(k) => if k >= |s.inFlight| then s else s.(inFlight := Without(s.inFlight, k))
    case Decide(k, decision) =>
      if k >= |s.certs| || s.certs[k].status != CertPending || decision == CertPending then s
      else s.(certs := s.certs[k := s.certs[k].(status := decision)])
  }

  function Run(overlap: nat, config: Config, events: seq<Event>): Uploads {
    if events == [] then Uploads([], [])
    else Step(overlap, config, Run(overlap, config, events[..|events| - 1]), events[|events| - 1])
  }

  // ----- A brevet is shared by at most as many accounts as its uploads overlap -----

  /** The accounts on which the brevet is pending or validated. */
  function Holders(certs: seq<Certification>, kind: string, number: string): set<Uuid> {
    set c | c in certs && c.status != CertRejected && c.kind == kind && c.number == number :: c.freelanceId
  }

  function Claimants(claims: seq<Claim>, kind: string, number: string): set<Uuid> {
    set claim | claim in claims && IsFor(claim, kind, number) :: claim.freelanceId
  }

  ghost predicate Bounded(overlap: nat, s: Uploads, kind: string, number: string) {
    && CountFor(s.inFlight, kind, number) <= overlap
    && |Holders(s.certs, kind, number) + Claimants(s.inFlight, kind, number)| <= overlap
  }

  lemma {:induction false} CountForSplit(xs: seq<Claim>, ys: seq<Claim>, kind: string, number: string)
    ensures CountFor(xs + ys, kind, number) == CountFor(xs, kind, number) + CountFor(ys, kind, number)
  {
    if xs == [] {
      assert xs + ys == ys;
    } else {
      assert (xs + ys)[1..] == xs[1..] + ys;
      CountForSplit(xs[1..], ys, kind, number);
    }
  }

  lemma CountForWithout(claims: seq<Claim>, k: nat, kind: string, number: string)
    requires k < |claims|
    ensures CountFor(Without(claims, k), kind, number) <= CountFor(claims, kind, number)
  {
    assert claims == claims[..k] + ([claims[k]] + claims[k + 1..]);
    CountForSplit(claims[..k], [claims[k]] + claims[k + 1..], kind, number);
    CountForSplit([claims[k]], claims[k + 1..], kind, number);
    CountForSplit(claims[..k], claims[k + 1..], kind, number);
  }

  lemma {:induction false} FewClaimants(claims: seq<Claim>, kind: string, number: string)
    ensures |Claimants(claims, kind, number)| <= CountFor(claims, kind, number)
  {
    if claims != [] {
      FewClaimants(claims[1..], kind, number);
      assert claims == [claims[0]] + claims[1..];
      var rest := Claimants(claims[1..], kind, number);
      assert Claimants(claims, kind, number) == if IsFor(claims[0], kind, number) then rest + {claims[0].freelanceId} else rest;
    }
  }

  lemma SearchKeepsBounded(overlap: nat, config: Config, s: Uploads, freelanceId: Uuid, upload: Upload)
    requires Bounded(overlap, s, upload.kind, upload.number)
    ensures Bounded(overlap, Step(overlap, config, s, Search(freelanceId, upload)), upload.kind, upload.number)
  {
    var s' := Step(overlap, config, s, Search(freelanceId, upload));
    if s' != s {
      var (kind, number, claim) := (upload.kind, upload.number, Claim(freelanceId, upload));
      CountForSplit(s.inFlight, [claim], kind, number);
      FewClaimants(s.inFlight, kind, number);
      forall holder | holder in Holders(s.certs, kind, number) ensures holder == freelanceId {
        var k :| 0 <= k < |s.certs| && s.certs[k].status != CertRejected && s.certs[k].kind == kind
          && s.certs[k].number == number && s.certs[k].freelanceId == holder;
        assert !DeclaredElsewhere(s.certs, freelanceId, kind, number);
      }
      var claimants := Claimants(s.inFlight, kind, number);
      forall who | who in Holders(s'.certs, kind, number) + Claimants(s'.inFlight, kind, number) ensures who in claimants + {freelanceId} {
      }
      SubsetSize(Holders(s'.certs, kind, number) + Claimants(s'.inFlight, kind, number), claimants + {freelanceId});
    }
  }

  lemma OtherSearchKeepsBounded(overlap: nat, config: Config, s: Uploads, freelanceId: Uuid, upload: Upload, kind: string, number: string)
    requires Bounded(overlap, s, kind, number) && !(upload.kind == kind && upload.number == number)
    ensures Bounded(overlap, Step(overlap, config, s, Search(freelanceId, upload)), kind, number)
  {
    var claim := Claim(freelanceId, upload);
    CountForSplit(s.inFlight, [claim], kind, number);
    assert forall c :: c in s.inFlight + [claim] <==> c in s.inFlight || c == claim;
    assert Claimants(s.inFlight + [claim], kind, number) == Claimants(s.inFlight, kind, number);
  }

  /** Everything but a search only turns claimants into holders, or takes some away. */
  lemma InsertInvolvesNoOther(overlap: nat, config: Config, s: Uploads, event: Event, kind: string, number: string)
    requires (event.Insert? || event.Fail?) && event.k < |s.inFlight|
    ensures var s' := Step(overlap, config, s, event);
      Holders(s'.certs, kind, number) + Claimants(s'.inFlight, kind, number)
      <= Holders(s.certs, kind, number) + Claimants(s.inFlight, kind, number)
  {
    var s' := Step(overlap, config, s, event);
    assert forall claim :: claim in s'.inFlight ==> claim in s.inFlight;
    assert s.inFlight[event.k] in s.inFlight;
    if event.Insert? {
      assert forall c :: c in s'.certs ==> c in s.certs || c == s'.certs[|s.certs|];
    }
  }

  lemma DecisionInvolvesNoOther(overlap: nat, config: Config, s: Uploads, k: nat, decision: CertificationStatus, kind: string, number: string)
    ensures Holders(Step(overlap, config, s, Decide(k, decision)).certs, kind, number) <= Holders(s.certs, kind, number)
  {
    var s' := Step(overlap, config, s, Decide(k, decision));
    if s' != s {
      assert s.certs[k] in s.certs;
      assert forall c :: c in s'.certs ==> c in s.certs || c == s'.certs[k];
    }
  }

  lemma OtherStepKeepsBounded(overlap: nat, config: Config, s: Uploads, event: Event, kind: string, number: string)
    requires Bounded(overlap, s, kind, number) && !event.Search?
    ensures Bounded(overlap, Step(overlap, config, s, event), kind, number)
  {
    var s' := Step(overlap, config, s, event);
    if event.Decide? {
      DecisionInvolvesNoOther(overlap, config, s, event.k, event.decision, kind, number);
    } else if event.k < |s.inFlight| {
      CountForWithout(s.inFlight, event.k, kind, number);
      InsertInvolvesNoOther(overlap, config, s, event, kind, number);
    }
    SubsetSize(Holders(s'.certs, kind, number) + Claimants(s'.inFlight, kind, number),
               Holders(s.certs, kind, number) + Claimants(s.inFlight, kind, number));
  }

  lemma StepKeepsBounded(overlap: nat, config: Config, s: Uploads, event: Event, kind: string, number: string)
    requires Bounded(overlap, s, kind, number)
    ensures Bounded(overlap, Step(overlap, config, s, event), kind, number)
  {
    if event.Search? && event.upload.kind == kind && event.upload.number == number {
      SearchKeepsBounded(overlap, config, s, event.freelanceId, event.upload);
    } else if event.Search? {
      OtherSearchKeepsBounded(overlap, config, s, event.freelanceId, event.upload, kind, number);
    } else {
      OtherStepKeepsBounded(overlap, config, s, event, kind, number);
    }
  }

  /** In every interleaving a brevet is pending or validated on at most `overlap` accounts. */
  lemma {:induction false} HoldersAreBounded(overlap: nat, config: Config, events: seq<Event>, kind: string, number: string)
    ensures Bounded(overlap, Run(overlap, config, events), kind, number)
    ensures |Holders(Run(overlap, config, events).certs, kind, number)| <= overlap
  {
    if events != [] {
      HoldersAreBounded(overlap, config, events[..|events| - 1], kind, number);
      StepKeepsBounded(overlap, config, Run(overlap, config, events[..|events| - 1]), events[|events| - 1], kind, number);
    }
    var s := Run(overlap, config, events);
    SubsetSize(Holders(s.certs, kind, number), Holders(s.certs, kind, number) + Claimants(s.inFlight, kind, number));
  }

  // ----- The bound is reached -----

  lemma RunAppend(overlap: nat, config: Config, events: seq<Event>, event: Event)
    ensures Run(overlap, config, events + [event]) == Step(overlap, config, Run(overlap, config, events), event)
  {
    assert (events + [event])[..|events|] == events;
  }

  /** Accounts 0 to n - 1 search for the same brevet. */
  function Searches(upload: Upload, n: nat): seq<Event> {
    if n == 0 then [] else Searches(upload, n - 1) + [Search(n - 1, upload)]
  }

  /** And after `all` searches, the first `n` of them insert. */
  function SearchesAndInserts(upload: Upload, all: nat, n: nat): seq<Event> {
    if n == 0 then Searches(upload, all) else SearchesAndInserts(upload, all, n - 1) + [Insert(0, n - 1)]
  }

  function ClaimsFrom(upload: Upload, low: nat, high: nat): seq<Claim>
    requires low <= high
  {
    seq(high - low, i requires 0 <= i < high - low => Claim(low + i, upload))
  }

  function Rows(upload: Upload, n: nat): seq<Certification> {
    seq(n, i requires 0 <= i < n => NewCertification(i, i, upload))
  }

  lemma {:induction false} ClaimsCount(upload: Upload, low: nat, high: nat)
    requires low <= high
    ensures CountFor(ClaimsFrom(upload, low, high), upload.kind, upload.number) == high - low
    decreases high - low
  {
    if low < high {
      ClaimsCount(upload, low + 1, high);
      assert ClaimsFrom(upload, low, high)[1..] == ClaimsFrom(upload, low + 1, high);
    }
  }

  lemma OneSearches(overlap: nat, config: Config, upload: Upload, n: nat)
    requires n < overlap && UploadRefusal(config, [], n, upload).None?
    ensures Step(overlap, config, Uploads([], ClaimsFrom(upload, 0, n)), Search(n, upload)) == Uploads([], ClaimsFrom(upload, 0, n + 1))
  {
    ClaimsCount(upload, 0, n);
    assert ClaimsFrom(upload, 0, n) + [Claim(n, upload)] == ClaimsFrom(upload, 0, n + 1);
  }

  lemma {:induction false} AllSearch(overlap: nat, config: Config, upload: Upload, n: nat)
    requires n <= overlap && forall who: nat :: UploadRefusal(config, [], who, upload).None?
    ensures Run(overlap, config, Searches(upload, n)) == Uploads([], ClaimsFrom(upload, 0, n))
  {
    if n > 0 {
      AllSearch(overlap, config, upload, n - 1);
      OneSearches(overlap, config, upload, n - 1);
      RunAppend(overlap, config, Searches(upload, n - 1), Search(n - 1, upload));
    }
  }

  lemma OneInserts(overlap: nat, config: Config, upload: Upload, all: nat, n: nat)
    requires n < all
    ensures Step(overlap, config, Uploads(Rows(upload, n), ClaimsFrom(upload, n, all)), Insert(0, n))
         == Uploads(Rows(upload, n + 1), ClaimsFrom(upload, n + 1, all))
  {
    assert Without(ClaimsFrom(upload, n, all), 0) == ClaimsFrom(upload, n + 1, all);
    assert Rows(upload, n) + [NewCertification(n, n, upload)] == Rows(upload, n + 1);
  }

  lemma {:induction false} AllInsert(overlap: nat, config: Config, upload: Upload, all: nat, n: nat)
    requires n <= all <= overlap && forall who: nat :: UploadRefusal(config, [], who, upload).None?
    ensures Run(overlap, config, SearchesAndInserts(upload, all, n)) == Uploads(Rows(upload, n), ClaimsFrom(upload, n, all))
  {
    if n == 0 {
      AllSearch(overlap, config, upload, all);
      assert Rows(upload, n) == [];
    } else {
      AllInsert(overlap, config, upload, all, n - 1);
      OneInserts(overlap, config, upload, all, n - 1);
      RunAppend(overlap, config, SearchesAndInserts(upload, all, n - 1), Insert(0, n - 1));
    }
  }

  /** For every overlap: any upload that an empty table accepts ends up on that many accounts. */
  lemma OverlappingUploadsShareABrevet(overlap: nat, config: Config, upload: Upload, who: nat)
    requires forall owner: nat :: UploadRefusal(config, [], owner, upload).None?
    requires who < overlap
    ensures who in Holders(Run(overlap, config, SearchesAndInserts(upload, overlap, overlap)).certs, upload.kind, upload.number)
  {
    AllInsert(overlap, config, upload, overlap, overlap);
    var rows := Rows(upload, overlap);
    assert rows[who] in rows;
  }

  lemma OneHolderEach(config: Config, events: seq<Event>)
    ensures NoSharedBrevet(Run(1, config, events).certs)
  {
    var certs := Run(1, config, events).certs;
    forall i, j | 0 <= i < |certs| && 0 <= j < |certs|
      && certs[i].status != CertRejected && certs[j].status != CertRejected
      && certs[i].kind == certs[j].kind && certs[i].number == certs[j].number
      ensures certs[i].freelanceId == certs[j].freelanceId
    {
      var (a, b) := (certs[i], certs[j]);
      HoldersAreBounded(1, config, events, a.kind, a.number);
      assert a in certs && b in certs;
      var holders := Holders(certs, a.kind, a.number);
      assert {a.freelanceId, b.freelanceId} <= holders;
      SubsetSize({a.freelanceId, b.freelanceId}, holders);
    }
  }

  lemma SharedByTwo(certs: seq<Certification>, kind: string, number: string, one: Uuid, other: Uuid)
    requires one in Holders(certs, kind, number) && other in Holders(certs, kind, number) && one != other
    ensures !NoSharedBrevet(certs)
  {
    var i :| 0 <= i < |certs| && certs[i].status != CertRejected && certs[i].kind == kind && certs[i].number == number && certs[i].freelanceId == one;
    var j :| 0 <= j < |certs| && certs[j].status != CertRejected && certs[j].kind == kind && certs[j].number == number && certs[j].freelanceId == other;
  }

  /** No brevet is shared in any run if and only if uploads of one brevet never overlap. */
  lemma UnsharedIffNoOverlap(overlap: nat)
    requires overlap >= 1
    ensures overlap == 1 <==>
      forall config: Config, events: seq<Event> :: NoSharedBrevet(Run(overlap, config, events).certs)
  {
    if overlap == 1 {
      forall config: Config, events: seq<Event> ensures NoSharedBrevet(Run(overlap, config, events).certs) {
        OneHolderEach(config, events);
      }
    } else {
      var (config, upload) := (Config(4, (body: Bytes) => Some(body)), Upload("DGAC_DRONE", "1", "2030-01-01", Some(PDF_MAGIC)));
      assert forall owner: nat :: UploadRefusal(config, [], owner, upload).None?;
      var one: nat, other: nat := 0, 1;
      OverlappingUploadsShareABrevet(overlap, config, upload, one);
      OverlappingUploadsShareABrevet(overlap, config, upload, other);
      SharedByTwo(Run(overlap, config, SearchesAndInserts(upload, overlap, overlap)).certs, upload.kind, upload.number, one, other);
    }
  }
}
