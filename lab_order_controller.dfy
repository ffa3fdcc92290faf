/** `labOrderController.js`: ordering laboratory tests and uploading a result file for an
    order. */
module LabOrderController {
  import opened Common
  import opened LabOrderModel
  import opened ObjectKeys
  import Records
  import opened Store

  /** The `tests` field of a request: absent (the destructuring default `[]` applies), an
      array of tests, or some other JSON value. */
  datatype TestsField = NoTests | TestList(tests: seq<LabTest>) | NotTestList

  datatype LabOrderRequest = LabOrderRequest(
    consultationId: Option<Id>,
    patientId: Option<Id>,
    orderedBy: Option<Id>,
    doctor: Option<Id>,
    tests: TestsField)

  function TestsOf(f: TestsField): (g: TestsField)
    ensures g.TestList? <==> !f.NotTestList?
    ensures f.NoTests? ==> g == TestList([])
    ensures f.TestList? ==> g == f
  {
    if f.NoTests? then TestList([]) else f
  }

  /** `req.user?.userId`: the authenticated caller, when there is one. */
  function Actor(caller: Id): (a: Option<Id>)
    ensures Truthy(a) <==> caller != ""
  {
    if caller != "" then Some(caller) else None
  }

  /** `body.doctor || orderedBy || req.user.userId`. */
  function OrderingDoctor(r: LabOrderRequest, caller: Id): Option<Id>
  {
    OrElse(OrElse(r.doctor, r.orderedBy), Actor(caller))
  }

  /** The controller's own first check: a truthy patient id and a non-empty array of tests. */
  predicate OrderShaped(r: LabOrderRequest)
  {
    Truthy(r.patientId) && TestsOf(r.tests).TestList? && |TestsOf(r.tests).tests| > 0
  }

  /** The order `createLabOrder` builds: status ordered, priority routine, ordered now. */
  function NewLabOrder(r: LabOrderRequest, caller: Id, now: int): (o: LabOrder)
    requires OrderShaped(r) && Truthy(OrderingDoctor(r, caller))
    ensures o.status == DefaultLabOrderStatus && o.priority == DefaultPriority
    ensures o.orderedAt == now && o.results == [] && o.laboratory.None?
    ensures o.tests == r.tests.tests && o.patient == r.patientId.value
  {
    LabOrder(OrElse(r.consultationId, None), r.patientId.value, OrderingDoctor(r, caller).value,
             OrElse(r.orderedBy, Actor(caller)), None, TestsOf(r.tests).tests,
             DefaultPriority, DefaultLabOrderStatus, now, [])
  }

  /** Every check of `createLabOrder` passes and `save` accepts the order. */
  predicate OrderCreatable(r: LabOrderRequest, caller: Id, now: int)
  {
    OrderShaped(r) && Truthy(OrderingDoctor(r, caller)) && Saveable(NewLabOrder(r, caller, now))
  }

  /** `$push` of `oid` onto the `labOrders` list of consultation `cid`, when it exists. */
  function LinkedOrder(cs: map<Id, Records.Consultation>, cid: Id, oid: Id): (r: map<Id, Records.Consultation>)
    ensures r.Keys == cs.Keys
    ensures forall c :: c in cs && c != cid ==> r[c] == cs[c]
    ensures cid in cs ==> r[cid] == cs[cid].(labOrders := cs[cid].labOrders + [oid])
  {
    if cid in cs then cs[cid := cs[cid].(labOrders := cs[cid].labOrders + [oid])] else cs
  }

  const TestsRequired: Reply := Reply(400, "patientId and tests required")
  const DoctorRequired: Reply := Reply(400, "doctor (ordering user) is required")
  /** The 201 reply carries the order and no message. */
  const OrderCreated: Reply := Reply(201, "")
  const FileRequired: Reply := Reply(400, "file required")
  const LabOrderNotFound: Reply := Reply(404, "Lab order not found")
  const ResultUploaded: Reply := Reply(200, "Result uploaded")
  /** Mongoose's validation message is not modelled; only the status code is. */
  const SaveFailed: Reply := Reply(500, "Validation failed")

  /** `createLabOrder`: the controller's checks, `save`, then the push onto the
      consultation. */
  method CreateLabOrder(db: Db, r: LabOrderRequest, caller: Id, now: int, newId: Id) returns (reply: Reply)
    requires newId !in db.labOrders
    modifies db`labOrders, db`consultations
    ensures !OrderShaped(r) ==>
      reply == TestsRequired && db.labOrders == old(db.labOrders) && db.consultations == old(db.consultations)
    ensures OrderShaped(r) && !Truthy(OrderingDoctor(r, caller)) ==>
      reply == DoctorRequired && db.labOrders == old(db.labOrders) && db.consultations == old(db.consultations)
    ensures OrderShaped(r) && Truthy(OrderingDoctor(r, caller)) && !OrderCreatable(r, caller, now) ==>
      reply == SaveFailed && db.labOrders == old(db.labOrders) && db.consultations == old(db.consultations)
    ensures OrderCreatable(r, caller, now) ==>
      reply == OrderCreated
      && db.labOrders == old(db.labOrders)[newId := NewLabOrder(r, caller, now)]
      && db.consultations == LinkedOrder(old(db.consultations), NewLabOrder(r, caller, now).consultation.value, newId)
  {
    if !OrderShaped(r) {
      return TestsRequired;
    }
    if !Truthy(OrderingDoctor(r, caller)) {
      return DoctorRequired;
    }
    var o := NewLabOrder(r, caller, now);
    if !Saveable(o) {
      return SaveFailed;
    }
    db.labOrders := db.labOrders[newId := o];
    db.consultations := LinkedOrder(db.consultations, o.consultation.value, newId);
    reply := OrderCreated;
  }

  /** Behind authentication the doctor check never fires: the caller's id is the last
      fallback. The ordering doctor is the first truthy of body doctor, orderer, caller. */
  lemma OrderingDoctorKnown(r: LabOrderRequest, caller: Id)
    requires caller != ""
    ensures Truthy(OrderingDoctor(r, caller))
    ensures Truthy(r.doctor) ==> OrderingDoctor(r, caller) == r.doctor
    ensures !Truthy(r.doctor) && Truthy(r.orderedBy) ==> OrderingDoctor(r, caller) == r.orderedBy
    ensures !Truthy(r.doctor) && !Truthy(r.orderedBy) ==> OrderingDoctor(r, caller) == Some(caller)
  {
  }

  /** A new order is in a declared status, so the schema as written and the corrected one
      agree on it; it fails to save exactly when it has no consultation or a bad test. */
  lemma NewOrderSaveable(r: LabOrderRequest, caller: Id, now: int)
    requires OrderShaped(r) && Truthy(OrderingDoctor(r, caller))
    ensures SaveableAsWritten(NewLabOrder(r, caller, now)) <==> Saveable(NewLabOrder(r, caller, now))
    ensures Saveable(NewLabOrder(r, caller, now)) <==>
      Truthy(r.consultationId) && forall k :: 0 <= k < |r.tests.tests| ==> ValidTest(r.tests.tests[k])
  {
    DeclaredEnumMisses(NewLabOrder(r, caller, now).status);
  }

  // ---------------------------------------------------------------------------
  // uploadResult

  /** The multipart file of an upload: the client's file name and the MIME type. */
  datatype UploadedFile = UploadedFile(originalname: string, mimetype: string)

  const ResultFolder: string := "lab-results"

  /** The order after a result upload: the new result listed, the status `received`. */
  function ReceivedOrder(o: LabOrder, resultId: Id): (p: LabOrder)
    ensures p.status == Received && p.results == o.results + [resultId]
    ensures p.(results := o.results, status := o.status) == o
    ensures FieldsSaveable(o) ==> FieldsSaveable(p)
  {
    o.(results := o.results + [resultId], status := Received)
  }

  /** As written the schema's enumeration lacks `received`, so the upload's final save
      always fails and its transaction is rolled back; the corrected schema accepts it. */
  lemma UploadNeverCommitsAsWritten(o: LabOrder, resultId: Id)
    ensures !SaveableAsWritten(ReceivedOrder(o, resultId))
    ensures FieldsSaveable(o) ==> Saveable(ReceivedOrder(o, resultId))
  {
    ReceivedNeverSaves(ReceivedOrder(o, resultId));
  }

  /** The LabResult an upload inserts: the order, the caller, the client's file name, the
      storage key and the MIME type. */
  function UploadedResult(id: Id, caller: Id, now: nat, file: UploadedFile): Records.LabResult
  {
    Records.LabResult(id, caller, file.originalname, StorageKey(ResultFolder, id, now, file.originalname), file.mimetype)
  }

  /** The key always has its folder, so the inserted LabResult saves exactly when the order
      id, the caller and the client's file name are all non-empty. */
  lemma UploadedResultSaveable(id: Id, caller: Id, now: nat, file: UploadedFile)
    ensures Records.LabResultSaveable(UploadedResult(id, caller, now, file)) <==>
      id != "" && caller != "" && file.originalname != ""
    ensures UploadedResult(id, caller, now, file).order == id
    ensures UploadedResult(id, caller, now, file).storageKey == StorageKey(ResultFolder, id, now, file.originalname)
  {
    var key := StorageKey(ResultFolder, id, now, file.originalname);
    assert key[0] == ResultFolder[0];
  }

  /** `uploadResult`: a file is required and the order must exist. In one transaction the file
      goes to the bucket, the LabResult is saved, and then the order is saved with the result
      and status `received`. The bucket is outside the transaction: when either save fails
      the database is rolled back but the file stays. */
  method UploadResult(db: Db, id: Id, file: Option<UploadedFile>, caller: Id, now: nat, newResultId: Id)
    returns (reply: Reply)
    requires newResultId !in db.labResults
    modifies db`labOrders, db`labResults, db`blobs
    ensures file.None? ==>
      reply == FileRequired
      && db.labOrders == old(db.labOrders) && db.labResults == old(db.labResults) && db.blobs == old(db.blobs)
    ensures file.Some? && id !in old(db.labOrders) ==>
      reply == LabOrderNotFound
      && db.labOrders == old(db.labOrders) && db.labResults == old(db.labResults) && db.blobs == old(db.blobs)
    ensures file.Some? && id in old(db.labOrders) ==>
      db.blobs == old(db.blobs) + {StorageKey(ResultFolder, id, now, file.value.originalname)}
    ensures file.Some? && id in old(db.labOrders) && !Records.LabResultSaveable(UploadedResult(id, caller, now, file.value)) ==>
      reply == SaveFailed && db.labOrders == old(db.labOrders) && db.labResults == old(db.labResults)
    ensures (file.Some? && id in old(db.labOrders) && Records.LabResultSaveable(UploadedResult(id, caller, now, file.value))
             && !Saveable(ReceivedOrder(old(db.labOrders)[id], newResultId))) ==>
      reply == SaveFailed && db.labOrders == old(db.labOrders) && db.labResults == old(db.labResults)
    ensures (file.Some? && id in old(db.labOrders) && Records.LabResultSaveable(UploadedResult(id, caller, now, file.value))
             && Saveable(ReceivedOrder(old(db.labOrders)[id], newResultId))) ==>
      reply == ResultUploaded
      && db.labOrders == old(db.labOrders)[id := ReceivedOrder(old(db.labOrders)[id], newResultId)]
      && db.labResults == old(db.labResults)[newResultId := UploadedResult(id, caller, now, file.value)]
  {
    if file.None? {
      return FileRequired;
    }
    if id !in db.labOrders {
      return LabOrderNotFound;
    }
    var key := StorageKey(ResultFolder, id, now, file.value.originalname);
    db.blobs := db.blobs + {key};
    var result := Records.LabResult(id, caller, file.value.originalname, key, file.value.mimetype);
    if !Records.LabResultSaveable(result) {
      return SaveFailed;
    }
    var o := ReceivedOrder(db.labOrders[id], newResultId);
    if !Saveable(o) {
      return SaveFailed;
    }
    db.labResults := db.labResults[newResultId := result];
    db.labOrders := db.labOrders[id := o];
    reply := ResultUploaded;
  }

  /** Every result an order lists exists, belongs to that order, and its file is in the
      bucket. */
  predicate ResultsStored(orders: map<Id, LabOrder>, results: map<Id, Records.LabResult>, blobs: set<string>)
  {
    forall o, k :: o in orders && 0 <= k < |orders[o].results| ==>
      orders[o].results[k] in results
      && results[orders[o].results[k]].order == o
      && results[orders[o].results[k]].storageKey in blobs
  }

  /** A committed upload keeps every listed result stored with its file, including the new
      one; a rolled-back upload only adds a file nothing refers to. */
  lemma UploadKeepsResultsStored(orders: map<Id, LabOrder>, results: map<Id, Records.LabResult>, blobs: set<string>,
                                 id: Id, rid: Id, caller: Id, now: nat, file: UploadedFile)
    requires ResultsStored(orders, results, blobs) && id in orders && rid !in results
    ensures var key := StorageKey(ResultFolder, id, now, file.originalname);
      ResultsStored(orders, results, blobs + {key})
      && ResultsStored(orders[id := ReceivedOrder(orders[id], rid)],
                       results[rid := UploadedResult(id, caller, now, file)],
                       blobs + {key})
  {
    var key := StorageKey(ResultFolder, id, now, file.originalname);
    var orders' := orders[id := ReceivedOrder(orders[id], rid)];
    var results' := results[rid := UploadedResult(id, caller, now, file)];
    forall o, k | o in orders' && 0 <= k < |orders'[o].results|
      ensures orders'[o].results[k] in results'
      ensures results'[orders'[o].results[k]].order == o
      ensures results'[orders'[o].results[k]].storageKey in blobs + {key}
    {
      if o == id && k == |orders[id].results| {
        assert orders'[o].results[k] == rid;
      } else {
        assert orders'[o].results[k] == orders[o].results[k];
        assert orders[o].results[k] in results;
      }
    }
  }

  /** New orders list no results, so creation keeps every listed result stored. */
  lemma CreateKeepsResultsStored(orders: map<Id, LabOrder>, results: map<Id, Records.LabResult>, blobs: set<string>,
                                 r: LabOrderRequest, caller: Id, now: int, newId: Id)
    requires ResultsStored(orders, results, blobs)
    requires OrderShaped(r) && Truthy(OrderingDoctor(r, caller))
    ensures ResultsStored(orders[newId := NewLabOrder(r, caller, now)], results, blobs)
  {
  }
}
