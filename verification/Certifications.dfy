/** Certification documents: upload, review, purge
    (backend-core/src/certifications/certification.service.ts), over the in-memory object store
    (backend-core/src/storage/fake-storage.service.ts). */
module Certifications {
  import opened Basics
  import opened Entities
  import opened Text

  type Bytes = seq<bv8>

  const PDF_MAGIC: Bytes := [0x25, 0x50, 0x44, 0x46]

  datatype CertificationStatus = CertPending | CertValidated | CertRejected

  datatype Certification = Certification(
    id: Uuid,
    freelanceId: Uuid,
    kind: string,
    number: string,
    validUntil: string,
    status: CertificationStatus,
    s3Key: Option<string>,
    reviewedAt: Option<nat>,
    purgedAt: Option<nat>)

  datatype StoredObject = StoredObject(body: Bytes, contentType: string)

  datatype CertError = BadRequest | Conflict | NotFound | Forbidden | Unavailable

  datatype Result<+T> = Ok(value: T) | Failed(error: CertError)

  datatype Upload = Upload(kind: string, number: string, validUntil: string, file: Option<Bytes>)

  // ----- Keys -----

  function StorageKey(freelanceId: Uuid, id: Uuid): string {
    "private/certifications/" + (Decimal(freelanceId) + "/" + (Decimal(id) + "." + "pdf"))
  }

  /** Different certifications never share a storage key. */
  lemma StorageKeyIsInjective(freelanceId: Uuid, id: Uuid, freelanceId': Uuid, id': Uuid)
    requires StorageKey(freelanceId, id) == StorageKey(freelanceId', id')
    ensures freelanceId == freelanceId' && id == id'
  {
    var (tail, tail') := (Decimal(id) + "." + "pdf", Decimal(id') + "." + "pdf");
    assert StorageKey(freelanceId, id)[23..] == Decimal(freelanceId) + "/" + tail;
    assert StorageKey(freelanceId', id')[23..] == Decimal(freelanceId') + "/" + tail';
    DecimalIsDigits(freelanceId);
    DecimalIsDigits(freelanceId');
    DecimalIsDigits(id);
    DecimalIsDigits(id');
    CutAtSeparator(Decimal(freelanceId), Decimal(freelanceId'), '/', tail, tail');
    CutAtSeparator(Decimal(id), Decimal(id'), '.', "pdf", "pdf");
    DecimalIsInjective(freelanceId, freelanceId');
    DecimalIsInjective(id, id');
  }

  // ----- The service, as functions of its two stores -----

  /** The certification table and the object store; `used` is every id ever generated. */
  datatype Registry = Registry(certs: seq<Certification>, objects: map<string, StoredObject>, used: set<Uuid>)

  const EMPTY_REGISTRY: Registry := Registry([], map[], {})

  datatype Change<+T> = Change(registry: Registry, result: Result<T>)

  function IndexOf(certs: seq<Certification>, id: Uuid): (k: nat)
    ensures k <= |certs|
    ensures k < |certs| ==> certs[k].id == id
    ensures forall j :: 0 <= j < k ==> certs[j].id != id
  {
    FirstIndex(certs, (cert: Certification) => cert.id == id)
  }

  predicate IsPdf(body: Bytes) {
    |body| >= 4 && body[..4] == PDF_MAGIC
  }

  /** The same brevet, pending or validated, on another account. */
  predicate DeclaredElsewhere(certs: seq<Certification>, freelanceId: Uuid, kind: string, number: string) {
    exists k :: 0 <= k < |certs|
      && certs[k].kind == kind && certs[k].number == number
      && certs[k].status != CertRejected && certs[k].freelanceId != freelanceId
  }

  /** Limits and the PDF rewriter, which refuses what it cannot parse. */
  datatype Config = Config(maxBytes: nat, strip: Bytes -> Option<Bytes>)

  /** Why an upload is refused before anything is written, if it is. */
  function UploadRefusal(config: Config, certs: seq<Certification>, freelanceId: Uuid, upload: Upload): Option<CertError> {
    if upload.file.None? then Some(BadRequest)
    else if |upload.file.value| > config.maxBytes then Some(BadRequest)
    else if !IsPdf(upload.file.value) then Some(BadRequest)
    else if DeclaredElsewhere(certs, freelanceId, upload.kind, upload.number) then Some(Conflict)
    else if config.strip(upload.file.value).None? then Some(BadRequest)
    else None
  }

  function NewCertification(freelanceId: Uuid, id: Uuid, upload: Upload): Certification {
    Certification(id, freelanceId, upload.kind, upload.number, upload.validUntil, CertPending,
                  Some(StorageKey(freelanceId, id)), None, None)
  }

  /** The object is written first, the row second; either may fail, before or after it took effect. */
  function Uploaded(config: Config, registry: Registry, freelanceId: Uuid, id: Uuid, upload: Upload,
                    put: Reply, save: Reply): Change<Certification> {
    var refusal := UploadRefusal(config, registry.certs, freelanceId, upload);
    if refusal.Some? then Change(registry, Failed(refusal.value))
    else
      var body := config.strip(upload.file.value).value;
      var stored := registry.(used := registry.used + {id},
        objects := if put.Ran() then registry.objects[StorageKey(freelanceId, id) := StoredObject(body, "application/pdf")]
                   else registry.objects);
      if put.Raised() then Change(stored, Failed(Unavailable))
      else
        var cert := NewCertification(freelanceId, id, upload);
        var saved := if save.Ran() then stored.(certs := stored.certs + [cert]) else stored;
        Change(saved, if save.Raised() then Failed(Unavailable) else Ok(cert))
  }

  /** The object is deleted first, the row second. */
  function Reviewed(registry: Registry, certId: Uuid, decision: CertificationStatus, validUntil: Option<string>,
                    now: nat, delete: Reply, save: Reply): Change<Certification> {
    var k := IndexOf(registry.certs, certId);
    if k == |registry.certs| then Change(registry, Failed(NotFound))
    else if registry.certs[k].status != CertPending then Change(registry, Failed(Conflict))
    else
      var decided := registry.certs[k].(status := decision, reviewedAt := Some(now),
        validUntil := if validUntil.Some? then validUntil.value else registry.certs[k].validUntil);
      var (purged, cert) :=
        if decided.s3Key.None? then (registry, decided)
        else (if delete.Ran() then registry.(objects := registry.objects - {decided.s3Key.value}) else registry,
              decided.(s3Key := None, purgedAt := Some(now)));
      if decided.s3Key.Some? && delete.Raised() then Change(purged, Failed(Unavailable))
      else
        Change(if save.Ran() then purged.(certs := purged.certs[k := cert]) else purged,
               if save.Raised() then Failed(Unavailable) else Ok(cert))
  }

  /** The key whose signed URL the caller gets. */
  function DocumentKey(registry: Registry, certId: Uuid, role: UserRole, userId: Uuid): Result<string> {
    var k := IndexOf(registry.certs, certId);
    if k == |registry.certs| then Failed(NotFound)
    else if role == Freelance && registry.certs[k].freelanceId != userId then Failed(Forbidden)
    else if registry.certs[k].s3Key.None? then Failed(NotFound)
    else if registry.certs[k].s3Key.value !in registry.objects then Failed(NotFound)
    else Ok(registry.certs[k].s3Key.value)
  }

  // ----- The same, in place -----

  class FakeStorageService {
    var store: map<string, StoredObject>

    constructor ()
      ensures store == map[]
    {
      store := map[];
    }

    method Put(key: string, body: Bytes, contentType: string, reply: Reply) returns (raised: bool)
      modifies this
      ensures store == if reply.Ran() then old(store)[key := StoredObject(body, contentType)] else old(store)
      ensures raised == reply.Raised()
    {
      if reply.Ran() {
        store := store[key := StoredObject(body, contentType)];
      }
      raised := reply.Raised();
    }

    method Delete(key: string, reply: Reply) returns (raised: bool)
      modifies this
      ensures store == if reply.Ran() then old(store) - {key} else old(store)
      ensures raised == reply.Raised()
    {
      if reply.Ran() {
        store := store - {key};
      }
      raised := reply.Raised();
    }
  }

  class CertificationService {
    var certs: seq<Certification>
    ghost var used: set<Uuid>
    const storage: FakeStorageService
    const config: Config

    constructor (storage: FakeStorageService, config: Config)
      ensures certs == [] && used == {} && this.storage == storage && this.config == config
    {
      this.storage, this.config, certs, used := storage, config, [], {};
    }

    ghost function View(): Registry
      reads this, storage
    {
      Registry(certs, storage.store, used)
    }

    method UploadCertification(freelanceId: Uuid, id: Uuid, upload: Upload, put: Reply, save: Reply)
      returns (result: Result<Certification>)
      modifies this`certs, this`used, storage
      ensures Change(View(), result) == Uploaded(config, old(View()), freelanceId, id, upload, put, save)
    {
      if upload.file.None? {
        return Failed(BadRequest);
      }
      var body := upload.file.value;
      if |body| > config.maxBytes {
        return Failed(BadRequest);
      }
      if !IsPdf(body) {
        return Failed(BadRequest);
      }
      if DeclaredElsewhere(certs, freelanceId, upload.kind, upload.number) {
        return Failed(Conflict);
      }
      var cleaned := config.strip(body);
      if cleaned.None? {
        return Failed(BadRequest);
      }
      used := used + {id};
      var raised := storage.Put(StorageKey(freelanceId, id), cleaned.value, "application/pdf", put);
      if raised {
        return Failed(Unavailable);
      }
      var cert := NewCertification(freelanceId, id, upload);
      if save.Ran() {
        certs := certs + [cert];
      }
      result := if save.Raised() then Failed(Unavailable) else Ok(cert);
    }

    method ReviewCertification(certId: Uuid, decision: CertificationStatus, validUntil: Option<string>, now: nat,
                               delete: Reply, save: Reply)
      returns (result: Result<Certification>)
      requires decision != CertPending
      modifies this`certs, storage
      ensures Change(View(), result) == Reviewed(old(View()), certId, decision, validUntil, now, delete, save)
    {
      var k := IndexOf(certs, certId);
      if k == |certs| {
        return Failed(NotFound);
      }
      var cert := certs[k];
      if cert.status != CertPending {
        return Failed(Conflict);
      }
      cert := cert.(status := decision, reviewedAt := Some(now));
      if validUntil.Some? {
        cert := cert.(validUntil := validUntil.value);
      }
      if cert.s3Key.Some? {
        var raised := storage.Delete(cert.s3Key.value, delete);
        if raised {
          return Failed(Unavailable);
        }
        cert := cert.(s3Key := None, purgedAt := Some(now));
      }
      if save.Ran() {
        certs := certs[k := cert];
      }
      result := if save.Raised() then Failed(Unavailable) else Ok(cert);
    }
  }

  // ----- Runs -----

  datatype CertEvent =
    | UploadCert(freelanceId: Uuid, id: Uuid, upload: Upload, put: Reply, save: Reply)
    | ReviewCert(certId: Uuid, decision: CertificationStatus, validUntil: Option<string>, now: nat, delete: Reply, save: Reply)

  /** Generated ids are new; the decision DTO never lets Pending through. */
  function Apply(config: Config, registry: Registry, event: CertEvent): Registry {
    match event
    case UploadCert(freelanceId, id, upload, put, save) =>
      if id in registry.used then registry else Uploaded(config, registry, freelanceId, id, upload, put, save).registry
    case ReviewCert(certId, decision, validUntil, now, delete, save) =>
      if decision == CertPending then registry
      else Reviewed(registry, certId, decision, validUntil, now, delete, save).registry
  }

  function Run(config: Config, registry: Registry, events: seq<CertEvent>): Registry {
    if events == [] then registry
    else Apply(config, Run(config, registry, events[..|events| - 1]), events[|events| - 1])
  }

  /** A row names its document exactly while it is pending, and then it is neither reviewed nor purged. */
  predicate RowIsConsistent(cert: Certification) {
    if cert.status == CertPending
    then cert.s3Key == Some(StorageKey(cert.freelanceId, cert.id)) && cert.reviewedAt.None? && cert.purgedAt.None?
    else cert.s3Key.None? && cert.reviewedAt.Some? && cert.purgedAt.Some?
  }

  ghost predicate RowsConsistent(registry: Registry) {
    && (forall k :: 0 <= k < |registry.certs| ==> RowIsConsistent(registry.certs[k]) && registry.certs[k].id in registry.used)
    && (forall i, j :: 0 <= i < j < |registry.certs| ==> registry.certs[i].id != registry.certs[j].id)
  }

  /** No document of a reviewed certification is stored. */
  ghost predicate DocumentsPurged(registry: Registry) {
    forall freelanceId: Uuid, id: Uuid :: StorageKey(freelanceId, id) in registry.objects ==>
      && id in registry.used
      && (forall k :: 0 <= k < |registry.certs| && registry.certs[k].id == id ==>
            registry.certs[k].status == CertPending && registry.certs[k].freelanceId == freelanceId)
  }

  /** Pending or validated certifications with one type and number belong to one freelancer. */
  ghost predicate NoSharedBrevet(certs: seq<Certification>) {
    forall i, j :: 0 <= i < |certs| && 0 <= j < |certs|
      && certs[i].status != CertRejected && certs[j].status != CertRejected
      && certs[i].kind == certs[j].kind && certs[i].number == certs[j].number
      ==> certs[i].freelanceId == certs[j].freelanceId
  }

  /** The stored keys are exactly the keys the rows name, that is, those of the pending ones. */
  ghost predicate StoreAgrees(registry: Registry) {
    && (forall k :: 0 <= k < |registry.certs| && registry.certs[k].s3Key.Some? ==> registry.certs[k].s3Key.value in registry.objects)
    && (forall key :: key in registry.objects ==> exists k :: 0 <= k < |registry.certs| && registry.certs[k].s3Key == Some(key))
  }

  // What a write may do to the rows: append one new pending row, or decide one pending row.

  lemma AppendKeepsRows(registry: Registry, registry': Registry, cert: Certification)
    requires RowsConsistent(registry) && NoSharedBrevet(registry.certs)
    requires cert.id !in registry.used && registry'.used == registry.used + {cert.id}
    requires registry'.certs == registry.certs + [cert] && RowIsConsistent(cert)
    requires !DeclaredElsewhere(registry.certs, cert.freelanceId, cert.kind, cert.number)
    ensures RowsConsistent(registry') && NoSharedBrevet(registry'.certs)
  {
  }

  lemma DecideKeepsRows(registry: Registry, registry': Registry, k: nat, cert: Certification)
    requires RowsConsistent(registry) && NoSharedBrevet(registry.certs)
    requires k < |registry.certs| && registry.certs[k].status == CertPending
    requires registry'.certs == registry.certs[k := cert] && registry'.used == registry.used
    requires RowIsConsistent(cert) && cert.id == registry.certs[k].id && cert.freelanceId == registry.certs[k].freelanceId
    requires cert.kind == registry.certs[k].kind && cert.number == registry.certs[k].number
    ensures RowsConsistent(registry') && NoSharedBrevet(registry'.certs)
  {
    assert forall i :: 0 <= i < |registry.certs| && i != k ==> registry'.certs[i] == registry.certs[i];
    forall i, j | 0 <= i < |registry'.certs| && 0 <= j < |registry'.certs|
      && registry'.certs[i].status != CertRejected && registry'.certs[j].status != CertRejected
      && registry'.certs[i].kind == registry'.certs[j].kind && registry'.certs[i].number == registry'.certs[j].number
      ensures registry'.certs[i].freelanceId == registry'.certs[j].freelanceId
    {
      var (a, b) := (registry.certs[i], registry.certs[j]);
      assert a.status != CertRejected && b.status != CertRejected && a.kind == b.kind && a.number == b.number;
    }
  }

  lemma UploadKeeps(config: Config, registry: Registry, event: CertEvent)
    requires event.UploadCert? && event.id !in registry.used
    requires RowsConsistent(registry) && NoSharedBrevet(registry.certs) && DocumentsPurged(registry)
    ensures var registry' := Apply(config, registry, event);
      RowsConsistent(registry') && NoSharedBrevet(registry'.certs) && DocumentsPurged(registry')
  {
    var registry' := Apply(config, registry, event);
    if registry'.certs != registry.certs {
      AppendKeepsRows(registry, registry', NewCertification(event.freelanceId, event.id, event.upload));
    }
    forall freelanceId: Uuid, id: Uuid | StorageKey(freelanceId, id) in registry'.objects
      ensures id in registry'.used
      ensures forall k :: 0 <= k < |registry'.certs| && registry'.certs[k].id == id ==>
        registry'.certs[k].status == CertPending && registry'.certs[k].freelanceId == freelanceId
    {
      if StorageKey(freelanceId, id) !in registry.objects {
        StorageKeyIsInjective(freelanceId, id, event.freelanceId, event.id);
      }
    }
  }

  lemma ReviewKeeps(config: Config, registry: Registry, event: CertEvent)
    requires event.ReviewCert?
    requires RowsConsistent(registry) && NoSharedBrevet(registry.certs) && DocumentsPurged(registry)
    ensures var registry' := Apply(config, registry, event);
      RowsConsistent(registry') && NoSharedBrevet(registry'.certs) && DocumentsPurged(registry')
  {
    var registry' := Apply(config, registry, event);
    var k := IndexOf(registry.certs, event.certId);
    if registry'.certs != registry.certs {
      DecideKeepsRows(registry, registry', k, registry'.certs[k]);
      assert registry.certs[k].s3Key == Some(StorageKey(registry.certs[k].freelanceId, event.certId));
      assert registry'.objects == registry.objects - {registry.certs[k].s3Key.value};
      assert forall freelanceId: Uuid, id: Uuid :: StorageKey(freelanceId, id) in registry'.objects ==> id != event.certId;
    }
    assert forall key :: key in registry'.objects ==> key in registry.objects;
  }

  /** In every run, with faults at any put, delete and save: the rows are consistent, no
      brevet number is shared between accounts, and once a certification has been reviewed its document
      is not in the store. */
  lemma {:induction false} ReviewedDocumentsAreGone(config: Config, events: seq<CertEvent>)
    ensures var registry := Run(config, EMPTY_REGISTRY, events);
      RowsConsistent(registry) && NoSharedBrevet(registry.certs) && DocumentsPurged(registry)
  {
    if events != [] {
      var n := |events| - 1;
      ReviewedDocumentsAreGone(config, events[..n]);
      var registry := Run(config, EMPTY_REGISTRY, events[..n]);
      if events[n].ReviewCert? {
        ReviewKeeps(config, registry, events[n]);
      } else if events[n].id !in registry.used {
        UploadKeeps(config, registry, events[n]);
      }
    }
  }

  // ----- When the two stores agree -----

  /** The step writes one store and not the other: an accepted upload whose object is put and whose row is
      not inserted, or a decision whose object is deleted and whose row is not saved. */
  predicate Splits(config: Config, registry: Registry, event: CertEvent) {
    match event
    case UploadCert(freelanceId, id, upload, put, save) =>
      && id !in registry.used && UploadRefusal(config, registry.certs, freelanceId, upload).None?
      && put.Ran() && (put.Raised() || !save.Ran())
    case ReviewCert(certId, decision, _, _, delete, save) =>
      var k := IndexOf(registry.certs, certId);
      && decision != CertPending && k < |registry.certs| && registry.certs[k].status == CertPending
      && delete.Ran() && (delete.Raised() || !save.Ran())
  }

  lemma UploadKeepsAgreement(config: Config, registry: Registry, event: CertEvent)
    requires event.UploadCert? && !Splits(config, registry, event) && event.id !in registry.used
    requires StoreAgrees(registry)
    ensures StoreAgrees(Apply(config, registry, event))
  {
    var registry' := Apply(config, registry, event);
    if registry'.certs != registry.certs {
      var n := |registry.certs|;
      var key := StorageKey(event.freelanceId, event.id);
      assert registry'.certs[n].s3Key == Some(key);
      forall key' | key' in registry'.objects
        ensures exists k :: 0 <= k < |registry'.certs| && registry'.certs[k].s3Key == Some(key')
      {
        if key' != key {
          var k :| 0 <= k < n && registry.certs[k].s3Key == Some(key');
          assert registry'.certs[k] == registry.certs[k];
        }
      }
    }
  }

  /** A review that does not split the stores changes neither, or both. */
  lemma ReviewsWhole(config: Config, registry: Registry, event: CertEvent)
    requires event.ReviewCert? && !Splits(config, registry, event) && RowsConsistent(registry)
    ensures var (registry', k) := (Apply(config, registry, event), IndexOf(registry.certs, event.certId));
      registry' == registry ||
        (&& k < |registry.certs| && registry.certs[k].s3Key.Some?
         && k < |registry'.certs| && registry'.certs[k].s3Key.None?
         && registry'.certs == registry.certs[k := registry'.certs[k]]
         && registry'.objects == registry.objects - {registry.certs[k].s3Key.value})
  {
    var k := IndexOf(registry.certs, event.certId);
    if k < |registry.certs| {
      assert RowIsConsistent(registry.certs[k]);
    }
  }

  lemma KeysDiffer(a: Certification, b: Certification)
    requires RowIsConsistent(a) && RowIsConsistent(b) && a.id != b.id && a.s3Key.Some?
    ensures a.s3Key != b.s3Key
  {
    if StorageKey(a.freelanceId, a.id) == StorageKey(b.freelanceId, b.id) {
      StorageKeyIsInjective(a.freelanceId, a.id, b.freelanceId, b.id);
    }
  }

  ghost predicate DistinctKeys(certs: seq<Certification>) {
    forall i, j :: 0 <= i < |certs| && 0 <= j < |certs| && i != j && certs[i].s3Key.Some? ==> certs[i].s3Key != certs[j].s3Key
  }

  lemma KeysAreDistinct(registry: Registry)
    requires RowsConsistent(registry)
    ensures DistinctKeys(registry.certs)
  {
    forall i, j | 0 <= i < |registry.certs| && 0 <= j < |registry.certs| && i != j && registry.certs[i].s3Key.Some?
      ensures registry.certs[i].s3Key != registry.certs[j].s3Key
    {
      KeysDiffer(registry.certs[i], registry.certs[j]);
    }
  }

  /** A decided row gives up its key in both stores at once. */
  lemma PurgeKeepsAgreement(registry: Registry, registry': Registry, k: nat, key: string)
    requires StoreAgrees(registry) && DistinctKeys(registry.certs)
    requires k < |registry.certs| && registry.certs[k].s3Key == Some(key)
    requires k < |registry'.certs| && registry'.certs[k].s3Key.None?
    requires registry'.certs == registry.certs[k := registry'.certs[k]]
    requires registry'.objects == registry.objects - {key}
    ensures StoreAgrees(registry')
  {
    forall j | 0 <= j < |registry'.certs| && registry'.certs[j].s3Key.Some?
      ensures registry'.certs[j].s3Key.value in registry'.objects
    {
      assert registry'.certs[j] == registry.certs[j] && registry.certs[j].s3Key != registry.certs[k].s3Key;
    }
    forall key' | key' in registry'.objects
      ensures exists j :: 0 <= j < |registry'.certs| && registry'.certs[j].s3Key == Some(key')
    {
      var j :| 0 <= j < |registry.certs| && registry.certs[j].s3Key == Some(key');
      assert registry'.certs[j] == registry.certs[j];
    }
  }

  lemma ReviewKeepsAgreement(config: Config, registry: Registry, event: CertEvent)
    requires event.ReviewCert? && !Splits(config, registry, event)
    requires StoreAgrees(registry) && RowsConsistent(registry)
    ensures StoreAgrees(Apply(config, registry, event))
  {
    var registry' := Apply(config, registry, event);
    ReviewsWhole(config, registry, event);
    if registry' != registry {
      var k := IndexOf(registry.certs, event.certId);
      KeysAreDistinct(registry);
      PurgeKeepsAgreement(registry, registry', k, registry.certs[k].s3Key.value);
    }
  }

  lemma SplitUploadBreaksAgreement(config: Config, registry: Registry, event: CertEvent)
    requires event.UploadCert? && Splits(config, registry, event) && RowsConsistent(registry)
    ensures !StoreAgrees(Apply(config, registry, event))
  {
    var registry' := Apply(config, registry, event);
    var key := StorageKey(event.freelanceId, event.id);
    assert key in registry'.objects && registry'.certs == registry.certs;
    forall k | 0 <= k < |registry.certs| ensures registry.certs[k].s3Key != Some(key) {
      assert RowIsConsistent(registry.certs[k]);
      KeysDiffer(NewCertification(event.freelanceId, event.id, event.upload), registry.certs[k]);
    }
  }

  lemma SplitReviewBreaksAgreement(config: Config, registry: Registry, event: CertEvent)
    requires event.ReviewCert? && Splits(config, registry, event) && RowsConsistent(registry)
    ensures !StoreAgrees(Apply(config, registry, event))
  {
    var registry' := Apply(config, registry, event);
    var k := IndexOf(registry.certs, event.certId);
    assert RowIsConsistent(registry.certs[k]);
    assert registry'.certs[k].s3Key.Some? && registry'.certs[k].s3Key.value !in registry'.objects;
  }

  /** From agreeing stores, a step keeps them agreeing if and only if it does not write one without the
      other. */
  lemma StepKeepsAgreementIff(config: Config, registry: Registry, event: CertEvent)
    requires StoreAgrees(registry) && RowsConsistent(registry)
    ensures StoreAgrees(Apply(config, registry, event)) <==> !Splits(config, registry, event)
  {
    if Splits(config, registry, event) {
      if event.UploadCert? {
        SplitUploadBreaksAgreement(config, registry, event);
      } else {
        SplitReviewBreaksAgreement(config, registry, event);
      }
    } else if event.ReviewCert? {
      ReviewKeepsAgreement(config, registry, event);
    } else if event.id !in registry.used {
      UploadKeepsAgreement(config, registry, event);
    }
  }

  ghost predicate AlwaysAgrees(config: Config, events: seq<CertEvent>) {
    StoreAgrees(Run(config, EMPTY_REGISTRY, events)) && (events != [] ==> AlwaysAgrees(config, events[..|events| - 1]))
  }

  ghost predicate NeverSplits(config: Config, events: seq<CertEvent>) {
    events != [] ==>
      && NeverSplits(config, events[..|events| - 1])
      && !Splits(config, Run(config, EMPTY_REGISTRY, events[..|events| - 1]), events[|events| - 1])
  }

  /** Over every run, the stored keys are at every instant exactly those of the pending certifications if
      and only if no step wrote one store without the other. */
  lemma {:induction false} StoresAgreeIff(config: Config, events: seq<CertEvent>)
    ensures AlwaysAgrees(config, events) <==> NeverSplits(config, events)
  {
    if events != [] {
      var earlier := events[..|events| - 1];
      StoresAgreeIff(config, earlier);
      ReviewedDocumentsAreGone(config, earlier);
      if AlwaysAgrees(config, earlier) {
        StepKeepsAgreementIff(config, Run(config, EMPTY_REGISTRY, earlier), events[|events| - 1]);
      }
    }
  }

  predicate FaultFree(event: CertEvent) {
    event.save.Answered? && if event.UploadCert? then event.put.Answered? else event.delete.Answered?
  }

  lemma {:induction false} FaultFreeNeverSplits(config: Config, events: seq<CertEvent>)
    requires forall e :: e in events ==> FaultFree(e)
    ensures NeverSplits(config, events)
  {
    if events != [] {
      assert events[|events| - 1] in events;
      FaultFreeNeverSplits(config, events[..|events| - 1]);
    }
  }

  lemma FaultFreeRunsAgree(config: Config, events: seq<CertEvent>)
    requires forall e :: e in events ==> FaultFree(e)
    ensures AlwaysAgrees(config, events)
  {
    FaultFreeNeverSplits(config, events);
    StoresAgreeIff(config, events);
  }

  lemma DocumentFor(registry: Registry, certId: Uuid, role: UserRole, userId: Uuid)
    requires StoreAgrees(registry) && RowsConsistent(registry)
    ensures DocumentKey(registry, certId, role, userId).Ok? <==>
      exists k :: 0 <= k < |registry.certs| && registry.certs[k].id == certId
        && registry.certs[k].status == CertPending
        && (role == Freelance ==> registry.certs[k].freelanceId == userId)
  {
    var k := IndexOf(registry.certs, certId);
    if k < |registry.certs| {
      assert RowIsConsistent(registry.certs[k]);
      assert forall j :: 0 <= j < |registry.certs| && registry.certs[j].id == certId ==> j == k;
    }
  }

  /** Who gets a document, while the stores agree: the owner or a non-freelancer, as long as it is pending. */
  lemma DocumentWhilePending(config: Config, events: seq<CertEvent>, certId: Uuid, role: UserRole, userId: Uuid)
    requires NeverSplits(config, events)
    ensures var registry := Run(config, EMPTY_REGISTRY, events);
      DocumentKey(registry, certId, role, userId).Ok? <==>
        exists k :: 0 <= k < |registry.certs| && registry.certs[k].id == certId
          && registry.certs[k].status == CertPending
          && (role == Freelance ==> registry.certs[k].freelanceId == userId)
  {
    StoresAgreeIff(config, events);
    ReviewedDocumentsAreGone(config, events);
    DocumentFor(Run(config, EMPTY_REGISTRY, events), certId, role, userId);
  }

  /** A lost row write after the delete leaves a pending certification without its document. */
  lemma FaultBreaksAgreement(config: Config, freelanceId: Uuid, upload: Upload)
    requires UploadRefusal(config, [], freelanceId, upload).None?
    ensures var events := [UploadCert(freelanceId, 1, upload, Answered, Answered),
                           ReviewCert(1, CertValidated, None, 0, Answered, Refused)];
      var registry := Run(config, EMPTY_REGISTRY, events);
      |registry.certs| == 1 && registry.certs[0].status == CertPending && registry.objects == map[]
  {
    var (upload_, review) := (UploadCert(freelanceId, 1, upload, Answered, Answered),
                              ReviewCert(1, CertValidated, None, 0, Answered, Refused));
    assert [upload_, review][..1] == [upload_] && [upload_][..0] == [];
    var one := Apply(config, EMPTY_REGISTRY, upload_);
    assert Run(config, EMPTY_REGISTRY, [upload_]) == one;
    assert one.certs == [NewCertification(freelanceId, 1, upload)];
    assert IndexOf(one.certs, 1) == 0;
  }

  /** The document of an upload whose row was never written. */
  ghost predicate Orphaned(registry: Registry, freelanceId: Uuid, id: Uuid) {
    && StorageKey(freelanceId, id) in registry.objects && id in registry.used
    && forall k :: 0 <= k < |registry.certs| ==> registry.certs[k].id != id
  }

  lemma StepKeepsOrphan(config: Config, registry: Registry, event: CertEvent, freelanceId: Uuid, id: Uuid)
    requires Orphaned(registry, freelanceId, id) && RowsConsistent(registry)
    ensures Orphaned(Apply(config, registry, event), freelanceId, id)
  {
    if event.ReviewCert? {
      var k := IndexOf(registry.certs, event.certId);
      if k < |registry.certs| && registry.certs[k].status == CertPending {
        var cert := registry.certs[k];
        assert RowIsConsistent(cert);
        if StorageKey(cert.freelanceId, cert.id) == StorageKey(freelanceId, id) {
          StorageKeyIsInjective(cert.freelanceId, cert.id, freelanceId, id);
        }
      }
    }
  }

  lemma RunLast(config: Config, before: seq<CertEvent>, after: seq<CertEvent>)
    requires after != []
    ensures Run(config, EMPTY_REGISTRY, before + after)
         == Apply(config, Run(config, EMPTY_REGISTRY, before + after[..|after| - 1]), after[|after| - 1])
  {
    assert (before + after)[..|before + after| - 1] == before + after[..|after| - 1];
  }

  /** It is stored for good: no later upload or review, with or without faults, ever names it. */
  lemma {:induction false} OrphansStay(config: Config, before: seq<CertEvent>, after: seq<CertEvent>, freelanceId: Uuid, id: Uuid)
    requires Orphaned(Run(config, EMPTY_REGISTRY, before), freelanceId, id)
    ensures Orphaned(Run(config, EMPTY_REGISTRY, before + after), freelanceId, id)
    decreases |after|
  {
    if after == [] {
      assert before + after == before;
    } else {
      var (shorter, last) := (after[..|after| - 1], after[|after| - 1]);
      OrphansStay(config, before, shorter, freelanceId, id);
      ReviewedDocumentsAreGone(config, before + shorter);
      StepKeepsOrphan(config, Run(config, EMPTY_REGISTRY, before + shorter), last, freelanceId, id);
      RunLast(config, before, after);
    }
  }

  /** An accepted upload that is put and not inserted makes an orphan, whatever came before. */
  lemma LostInsertOrphansDocument(config: Config, before: seq<CertEvent>, freelanceId: Uuid, id: Uuid, upload: Upload, save: Reply)
    requires var registry := Run(config, EMPTY_REGISTRY, before);
      id !in registry.used && UploadRefusal(config, registry.certs, freelanceId, upload).None?
    requires !save.Ran()
    ensures Orphaned(Run(config, EMPTY_REGISTRY, before + [UploadCert(freelanceId, id, upload, Answered, save)]), freelanceId, id)
  {
    ReviewedDocumentsAreGone(config, before);
    RunLast(config, before, [UploadCert(freelanceId, id, upload, Answered, save)]);
    assert before + [UploadCert(freelanceId, id, upload, Answered, save)][..0] == before;
  }

  // ----- What is stored, and whose -----

  /** An upload is accepted exactly with a file of at most that size that begins with %PDF and can be rewritten,
      for a brevet that no other account has pending or validated. */
  lemma UploadAcceptedIff(config: Config, certs: seq<Certification>, freelanceId: Uuid, upload: Upload)
    ensures UploadRefusal(config, certs, freelanceId, upload).None?
       <==> && upload.file.Some? && 4 <= |upload.file.value| <= config.maxBytes
            && upload.file.value[..4] == [0x25, 0x50, 0x44, 0x46] && config.strip(upload.file.value).Some?
            && (forall k :: 0 <= k < |certs| && certs[k].kind == upload.kind && certs[k].number == upload.number ==>
                  certs[k].freelanceId == freelanceId || certs[k].status == CertRejected)
    ensures UploadRefusal(config, certs, freelanceId, upload) == Some(Conflict)
       <==> && upload.file.Some? && 4 <= |upload.file.value| <= config.maxBytes
            && upload.file.value[..4] == [0x25, 0x50, 0x44, 0x46]
            && DeclaredElsewhere(certs, freelanceId, upload.kind, upload.number)
    ensures UploadRefusal(config, certs, freelanceId, upload) in {None, Some(Conflict), Some(BadRequest)}
  {
    if DeclaredElsewhere(certs, freelanceId, upload.kind, upload.number) {
      var k :| 0 <= k < |certs| && certs[k].kind == upload.kind && certs[k].number == upload.number
        && certs[k].status != CertRejected && certs[k].freelanceId != freelanceId;
    }
  }

  /** The pending row of `id` stands, and its document is `body`. */
  ghost predicate Stored(registry: Registry, freelanceId: Uuid, id: Uuid, body: Bytes) {
    && id in registry.used && StorageKey(freelanceId, id) in registry.objects
    && registry.objects[StorageKey(freelanceId, id)] == StoredObject(body, "application/pdf")
    && var k := IndexOf(registry.certs, id);
       k < |registry.certs| && registry.certs[k].status == CertPending && registry.certs[k].freelanceId == freelanceId
  }

  lemma UploadStores(config: Config, registry: Registry, freelanceId: Uuid, id: Uuid, upload: Upload)
    requires RowsConsistent(registry) && id !in registry.used
    requires UploadRefusal(config, registry.certs, freelanceId, upload).None?
    ensures Stored(Apply(config, registry, UploadCert(freelanceId, id, upload, Answered, Answered)), freelanceId, id,
                   config.strip(upload.file.value).value)
  {
    var registry' := Apply(config, registry, UploadCert(freelanceId, id, upload, Answered, Answered));
    assert registry'.certs[|registry.certs|].id == id;
    forall j | 0 <= j < |registry.certs| ensures registry'.certs[j].id != id {
      assert registry.certs[j].id in registry.used;
    }
  }

  lemma FirstRowStays(certs: seq<Certification>, certs': seq<Certification>, id: Uuid)
    requires |certs| <= |certs'| && IndexOf(certs, id) < |certs|
    requires forall j :: 0 <= j < |certs| ==> certs'[j].id == certs[j].id
    ensures IndexOf(certs', id) == IndexOf(certs, id)
  {
    var (k, k') := (IndexOf(certs, id), IndexOf(certs', id));
    assert certs'[k].id == id;
    assert k' <= k;
    assert certs[k'].id == certs'[k'].id;
  }

  lemma OtherUploadKeepsStored(config: Config, registry: Registry, event: CertEvent, freelanceId: Uuid, id: Uuid, body: Bytes)
    requires Stored(registry, freelanceId, id, body) && event.UploadCert?
    ensures Stored(Apply(config, registry, event), freelanceId, id, body)
  {
    if event.id !in registry.used {
      if StorageKey(event.freelanceId, event.id) == StorageKey(freelanceId, id) {
        StorageKeyIsInjective(event.freelanceId, event.id, freelanceId, id);
      }
      FirstRowStays(registry.certs, Apply(config, registry, event).certs, id);
    }
  }

  lemma OtherReviewKeepsStored(config: Config, registry: Registry, event: CertEvent, freelanceId: Uuid, id: Uuid, body: Bytes)
    requires Stored(registry, freelanceId, id, body) && RowsConsistent(registry)
    requires event.ReviewCert? && event.certId != id
    ensures Stored(Apply(config, registry, event), freelanceId, id, body)
  {
    var j := IndexOf(registry.certs, event.certId);
    if j < |registry.certs| && registry.certs[j].status == CertPending {
      var other := registry.certs[j];
      assert RowIsConsistent(other);
      if StorageKey(other.freelanceId, other.id) == StorageKey(freelanceId, id) {
        StorageKeyIsInjective(other.freelanceId, other.id, freelanceId, id);
      }
      FirstRowStays(registry.certs, Apply(config, registry, event).certs, id);
    }
  }

  lemma {:induction false} StoredStays(config: Config, before: seq<CertEvent>, after: seq<CertEvent>, freelanceId: Uuid, id: Uuid, body: Bytes)
    requires Stored(Run(config, EMPTY_REGISTRY, before), freelanceId, id, body)
    requires forall e :: e in after && e.ReviewCert? ==> e.certId != id
    ensures Stored(Run(config, EMPTY_REGISTRY, before + after), freelanceId, id, body)
    decreases |after|
  {
    if after == [] {
      assert before + after == before;
    } else {
      var (shorter, last) := (after[..|after| - 1], after[|after| - 1]);
      assert last in after;
      StoredStays(config, before, shorter, freelanceId, id, body);
      var registry := Run(config, EMPTY_REGISTRY, before + shorter);
      ReviewedDocumentsAreGone(config, before + shorter);
      RunLast(config, before, after);
      if last.UploadCert? {
        OtherUploadKeepsStored(config, registry, last, freelanceId, id, body);
      } else {
        OtherReviewKeepsStored(config, registry, last, freelanceId, id, body);
      }
    }
  }

  lemma StoredIsServed(registry: Registry, freelanceId: Uuid, id: Uuid, body: Bytes, role: UserRole, userId: Uuid)
    requires Stored(registry, freelanceId, id, body) && RowsConsistent(registry)
    ensures DocumentKey(registry, id, role, userId)
         == if role == Freelance && userId != freelanceId then Failed(Forbidden) else Ok(StorageKey(freelanceId, id))
  {
    assert RowIsConsistent(registry.certs[IndexOf(registry.certs, id)]);
  }

  /** What was uploaded is what is served: after an accepted and answered upload, whatever else is uploaded or
      reviewed with whatever faults, the owner and whoever is no freelancer get the key under which the rewritten
      file of this very upload is stored, and other freelancers are refused. */
  lemma UploadedDocumentIsServed(config: Config, before: seq<CertEvent>, freelanceId: Uuid, id: Uuid, upload: Upload,
                                 after: seq<CertEvent>, role: UserRole, userId: Uuid)
    requires var registry := Run(config, EMPTY_REGISTRY, before);
      id !in registry.used && UploadRefusal(config, registry.certs, freelanceId, upload).None?
    requires forall e :: e in after && e.ReviewCert? ==> e.certId != id
    ensures var registry' := Run(config, EMPTY_REGISTRY, before + [UploadCert(freelanceId, id, upload, Answered, Answered)] + after);
      && DocumentKey(registry', id, role, userId)
         == (if role == Freelance && userId != freelanceId then Failed(Forbidden) else Ok(StorageKey(freelanceId, id)))
      && StorageKey(freelanceId, id) in registry'.objects
      && registry'.objects[StorageKey(freelanceId, id)] == StoredObject(config.strip(upload.file.value).value, "application/pdf")
  {
    var uploaded := UploadCert(freelanceId, id, upload, Answered, Answered);
    var body := config.strip(upload.file.value).value;
    ReviewedDocumentsAreGone(config, before);
    UploadStores(config, Run(config, EMPTY_REGISTRY, before), freelanceId, id, upload);
    RunLast(config, before, [uploaded]);
    assert before + [uploaded][..0] == before;
    StoredStays(config, before + [uploaded], after, freelanceId, id, body);
    ReviewedDocumentsAreGone(config, before + [uploaded] + after);
    StoredIsServed(Run(config, EMPTY_REGISTRY, before + [uploaded] + after), freelanceId, id, body, role, userId);
  }

  /** An answered review records the decision and when it was taken, keeps or renews the validity, purges the
      document, and changes no other row; it is refused exactly for an unknown id or a row decided before. */
  lemma ReviewRecords(registry: Registry, k: nat, decision: CertificationStatus, validUntil: Option<string>, now: nat)
    requires RowsConsistent(registry) && k < |registry.certs| && decision != CertPending
    ensures var after := Reviewed(registry, registry.certs[k].id, decision, validUntil, now, Answered, Answered);
      if registry.certs[k].status == CertPending then
        && |after.registry.certs| == |registry.certs| && after.result == Ok(after.registry.certs[k])
        && after.registry.certs[k] == Certification(registry.certs[k].id, registry.certs[k].freelanceId, registry.certs[k].kind,
             registry.certs[k].number, if validUntil.Some? then validUntil.value else registry.certs[k].validUntil,
             decision, None, Some(now), Some(now))
        && (forall j :: 0 <= j < |registry.certs| && j != k ==> after.registry.certs[j] == registry.certs[j])
        && after.registry.objects == registry.objects - {StorageKey(registry.certs[k].freelanceId, registry.certs[k].id)}
      else after == Change(registry, Failed(Conflict))
  {
    assert RowIsConsistent(registry.certs[k]);
    assert IndexOf(registry.certs, registry.certs[k].id) == k;
  }
}
