/** `prescriptionController.js`: creating a prescription and moving it through signing,
    sending to a pharmacy and dispensing. */
module PrescriptionController {
  import opened Common
  import opened PrescriptionModel
  import Records
  import opened Store

  /** The default validity: 30 days, in milliseconds. */
  const ThirtyDays: int := 30 * 24 * 60 * 60 * 1000

  /** The `items` or `medications` field of a request: absent, an array of lines, or some
      other JSON value, which is truthy or not. */
  datatype ItemsField = Absent | List(lines: seq<MedicationLine>) | NotList(truthy: bool)

  predicate ItemsTruthy(f: ItemsField)
  {
    f.List? || (f.NotList? && f.truthy)
  }

  /** `items || medications || []`. */
  function ItemsOf(items: ItemsField, medications: ItemsField): (f: ItemsField)
    ensures ItemsTruthy(items) ==> f == items
    ensures !ItemsTruthy(items) && ItemsTruthy(medications) ==> f == medications
    ensures !ItemsTruthy(items) && !ItemsTruthy(medications) ==> f == List([])
  {
    if ItemsTruthy(items) then items else if ItemsTruthy(medications) then medications else List([])
  }

  /** The body of a create request. `validUntil` is an instant in milliseconds, 0 being
      falsy like any other zero. */
  datatype PrescriptionRequest = PrescriptionRequest(
    consultationId: Option<Id>,
    consultation: Option<Id>,
    patientId: Option<Id>,
    items: ItemsField,
    medications: ItemsField,
    notes: Option<string>,
    pharmacy: Option<Id>,
    status: Option<string>,
    validUntil: Option<int>)

  /** The checks the controller makes itself: a truthy patient id and a non-empty array of
      lines. */
  predicate RequestShaped(r: PrescriptionRequest)
  {
    && Truthy(r.patientId)
    && ItemsOf(r.items, r.medications).List?
    && |ItemsOf(r.items, r.medications).lines| > 0
  }

  /** The status the record is built with: `status || 'draft'`, which may not be a status. */
  function RequestedStatus(r: PrescriptionRequest): Option<PrescriptionStatus>
  {
    ParsePrescriptionStatus(OrElse(r.status, Some("draft")).value)
  }

  function ValidUntil(r: PrescriptionRequest, now: int): int
  {
    if r.validUntil.Some? && r.validUntil.value != 0 then r.validUntil.value else now + ThirtyDays
  }

  /** The medication lines as stored, each with its refill default applied. */
  function StoredLines(ls: seq<MedicationLine>): (s: seq<MedicationLine>)
    ensures |s| == |ls|
    ensures forall k :: 0 <= k < |ls| ==> s[k] == StoredLine(ls[k])
  {
    seq(|ls|, k requires 0 <= k < |ls| => StoredLine(ls[k]))
  }

  /** The prescription `createPrescription` builds from a shaped request whose status parses. */
  function Built(r: PrescriptionRequest, caller: Id, now: int): Prescription
    requires RequestShaped(r) && RequestedStatus(r).Some?
  {
    Prescription(
      OrElse(r.consultationId, r.consultation),
      r.patientId.value,
      caller,
      OrElse(r.pharmacy, None),
      StoredLines(ItemsOf(r.items, r.medications).lines),
      RequestedStatus(r).value,
      None, None, None,
      ValidUntil(r, now),
      None, None,
      OrElse(r.notes, Some("")).value)
  }

  /** A shaped request whose record passes `save`. */
  predicate Creatable(r: PrescriptionRequest, caller: Id, now: int)
  {
    RequestShaped(r) && RequestedStatus(r).Some? && PrescriptionSaveable(Built(r, caller, now))
  }

  /** `$push` of `pid` onto the `prescriptions` list of consultation `cid`; an unknown
      consultation is left alone, as `findByIdAndUpdate` finds nothing. */
  function Linked(cs: map<Id, Records.Consultation>, cid: Id, pid: Id): (r: map<Id, Records.Consultation>)
    ensures r.Keys == cs.Keys
    ensures forall c :: c in cs && c != cid ==> r[c] == cs[c]
    ensures cid in cs ==> r[cid] == cs[cid].(prescriptions := cs[cid].prescriptions + [pid])
  {
    if cid in cs then cs[cid := cs[cid].(prescriptions := cs[cid].prescriptions + [pid])] else cs
  }

  const ItemsRequired: Reply := Reply(400, "patientId and items required")
  const PrescriptionCreated: Reply := Reply(201, "Prescription created")
  const PrescriptionNotFound: Reply := Reply(404, "Prescription not found")
  const OnlyDraftsSign: Reply := Reply(400, "Only draft prescriptions can be signed")
  const PrescriptionSigned: Reply := Reply(200, "Prescription signed")
  const PharmacyRequired: Reply := Reply(400, "pharmacyId required")
  const DispensedCannotAssign: Reply := Reply(400, "Cannot assign dispensed prescription")
  const PharmacyNotFound: Reply := Reply(404, "Pharmacy not found")
  const PharmacyAssigned: Reply := Reply(200, "Pharmacy assigned and prescription sent")
  const NotReady: Reply := Reply(400, "Prescription not ready for dispense")
  const PrescriptionDispensed: Reply := Reply(200, "Prescription dispensed")
  /** Mongoose's validation message is not modelled; only the status code is. */
  const SaveFailed: Reply := Reply(500, "Validation failed")

  /** `createPrescription`: the controller's own check, then `save`, then the push onto the
      consultation. The consultation is required by the schema but never looked up. */
  method CreatePrescription(db: Db, r: PrescriptionRequest, caller: Id, now: int, newId: Id) returns (reply: Reply)
    requires newId !in db.prescriptions
    modifies db`prescriptions, db`consultations
    ensures !RequestShaped(r) ==>
      reply == ItemsRequired
      && db.prescriptions == old(db.prescriptions) && db.consultations == old(db.consultations)
    ensures RequestShaped(r) && !Creatable(r, caller, now) ==>
      reply == SaveFailed
      && db.prescriptions == old(db.prescriptions) && db.consultations == old(db.consultations)
    ensures Creatable(r, caller, now) ==>
      reply == PrescriptionCreated
      && db.prescriptions == old(db.prescriptions)[newId := Built(r, caller, now)]
      && db.consultations == Linked(old(db.consultations), Built(r, caller, now).consultation.value, newId)
  {
    if !RequestShaped(r) {
      return ItemsRequired;
    }
    if RequestedStatus(r).None? {
      return SaveFailed;
    }
    var p := Built(r, caller, now);
    if !PrescriptionSaveable(p) {
      return SaveFailed;
    }
    db.prescriptions := db.prescriptions[newId := p];
    db.consultations := Linked(db.consultations, p.consultation.value, newId);
    reply := PrescriptionCreated;
  }

  /** Without a validity date, a new prescription stays valid for the thirty days after its
      creation and expires after them. */
  lemma DefaultValidity(r: PrescriptionRequest, caller: Id, now: int, t: int)
    requires Creatable(r, caller, now)
    requires r.validUntil.None? || r.validUntil.value == 0
    ensures now <= t <= now + ThirtyDays ==> !IsExpired(Built(r, caller, now), t)
    ensures t > now + ThirtyDays ==> IsExpired(Built(r, caller, now), t)
  {
  }

  /** Every stored line is the request's line with the refill default, and it is valid
      exactly when the request's line is. */
  lemma StoredLinesValid(ls: seq<MedicationLine>)
    ensures forall k :: 0 <= k < |ls| ==> (ValidLine(StoredLines(ls)[k]) <==> ValidLine(ls[k]))
    ensures forall k :: 0 <= k < |ls| ==> StoredLines(ls)[k].refills.Some?
  {
    forall k | 0 <= k < |ls|
      ensures ValidLine(StoredLines(ls)[k]) <==> ValidLine(ls[k])
    {
      if ValidLine(ls[k]) {
        StoredLineValid(ls[k]);
      }
    }
  }

  /** Creation takes the status from the request, so a prescription can be born dispensed,
      with no signature and no dispenser. */
  lemma CreateCanSkipWorkflow(r: PrescriptionRequest, caller: Id, now: int)
    requires Creatable(r, caller, now) && r.status == Some("dispensed")
    ensures Built(r, caller, now).status == Dispensed
    ensures Built(r, caller, now).signedAt.None? && Built(r, caller, now).dispensedBy.None?
  {
  }

  // ---------------------------------------------------------------------------
  // the life cycle

  function SignedRecord(p: Prescription, signer: Id, at: int): Prescription
  {
    p.(status := Signed, signedBy := Some(signer), signedAt := Some(at))
  }

  function SentRecord(p: Prescription, pharmacy: Id, at: int): Prescription
  {
    p.(pharmacy := Some(pharmacy), status := Sent, sentAt := Some(at))
  }

  function DispensedRecord(p: Prescription, pharmacist: Id, at: int): Prescription
  {
    p.(status := Dispensed, dispensedBy := Some(pharmacist), dispensedAt := Some(at))
  }

  /** The status changes the three life-cycle operations admit, as a relation: signing a
      draft, sending anything not dispensed, dispensing what is signed or sent. */
  predicate Transition(from: PrescriptionStatus, to: PrescriptionStatus)
  {
    || (from == Draft && to == Signed)
    || (from != Dispensed && to == Sent)
    || (from in {Sent, Signed} && to == Dispensed)
  }

  /** `signPrescription`: only a draft can be signed. Each of the three operations either
      leaves the prescription as it was or moves its status along `Transition`, and leaves a
      dispensed one untouched. */
  method SignPrescription(db: Db, id: Id, caller: Id, now: int) returns (reply: Reply)
    modifies db`prescriptions
    ensures id in old(db.prescriptions) && old(db.prescriptions)[id].status == Dispensed ==>
      db.prescriptions == old(db.prescriptions)
    ensures id in old(db.prescriptions) ==>
      id in db.prescriptions
      && (db.prescriptions[id] == old(db.prescriptions)[id]
          || Transition(old(db.prescriptions)[id].status, db.prescriptions[id].status))
    ensures id !in old(db.prescriptions) ==> reply == PrescriptionNotFound && db.prescriptions == old(db.prescriptions)
    ensures id in old(db.prescriptions) && old(db.prescriptions)[id].status != Draft ==>
      reply == OnlyDraftsSign && db.prescriptions == old(db.prescriptions)
    ensures id in old(db.prescriptions) && old(db.prescriptions)[id].status == Draft ==>
      reply == PrescriptionSigned
      && db.prescriptions == old(db.prescriptions)[id := SignedRecord(old(db.prescriptions)[id], caller, now)]
  {
    if id !in db.prescriptions {
      return PrescriptionNotFound;
    }
    var p := db.prescriptions[id];
    if p.status != Draft {
      return OnlyDraftsSign;
    }
    db.prescriptions := db.prescriptions[id := SignedRecord(p, caller, now)];
    reply := PrescriptionSigned;
  }

  /** `assignPharmacy`, one transaction: any status but dispensed, including a draft never
      signed, is sent to an existing pharmacy. */
  method AssignPharmacy(db: Db, id: Id, pharmacyId: Option<Id>, now: int) returns (reply: Reply)
    modifies db`prescriptions
    ensures id in old(db.prescriptions) && old(db.prescriptions)[id].status == Dispensed ==>
      db.prescriptions == old(db.prescriptions)
    ensures id in old(db.prescriptions) ==>
      id in db.prescriptions
      && (db.prescriptions[id] == old(db.prescriptions)[id]
          || Transition(old(db.prescriptions)[id].status, db.prescriptions[id].status))
    ensures !Truthy(pharmacyId) ==> reply == PharmacyRequired && db.prescriptions == old(db.prescriptions)
    ensures Truthy(pharmacyId) && id !in old(db.prescriptions) ==>
      reply == PrescriptionNotFound && db.prescriptions == old(db.prescriptions)
    ensures Truthy(pharmacyId) && id in old(db.prescriptions) && old(db.prescriptions)[id].status == Dispensed ==>
      reply == DispensedCannotAssign && db.prescriptions == old(db.prescriptions)
    ensures Truthy(pharmacyId) && id in old(db.prescriptions) && old(db.prescriptions)[id].status != Dispensed
            && pharmacyId.value !in db.pharmacies ==>
      reply == PharmacyNotFound && db.prescriptions == old(db.prescriptions)
    ensures Truthy(pharmacyId) && id in old(db.prescriptions) && old(db.prescriptions)[id].status != Dispensed
            && pharmacyId.value in db.pharmacies ==>
      reply == PharmacyAssigned
      && db.prescriptions == old(db.prescriptions)[id := SentRecord(old(db.prescriptions)[id], pharmacyId.value, now)]
  {
    if !Truthy(pharmacyId) {
      return PharmacyRequired;
    }
    if id !in db.prescriptions {
      return PrescriptionNotFound;
    }
    var p := db.prescriptions[id];
    if p.status == Dispensed {
      return DispensedCannotAssign;
    }
    if pharmacyId.value !in db.pharmacies {
      return PharmacyNotFound;
    }
    db.prescriptions := db.prescriptions[id := SentRecord(p, pharmacyId.value, now)];
    reply := PharmacyAssigned;
  }

  /** `dispensePrescription`, one transaction: only a signed or sent prescription is
      dispensed. */
  method DispensePrescription(db: Db, id: Id, caller: Id, now: int) returns (reply: Reply)
    modifies db`prescriptions
    ensures id in old(db.prescriptions) && old(db.prescriptions)[id].status == Dispensed ==>
      db.prescriptions == old(db.prescriptions)
    ensures id in old(db.prescriptions) ==>
      id in db.prescriptions
      && (db.prescriptions[id] == old(db.prescriptions)[id]
          || Transition(old(db.prescriptions)[id].status, db.prescriptions[id].status))
    ensures id !in old(db.prescriptions) ==> reply == PrescriptionNotFound && db.prescriptions == old(db.prescriptions)
    ensures id in old(db.prescriptions) && old(db.prescriptions)[id].status !in {Sent, Signed} ==>
      reply == NotReady && db.prescriptions == old(db.prescriptions)
    ensures id in old(db.prescriptions) && old(db.prescriptions)[id].status in {Sent, Signed} ==>
      reply == PrescriptionDispensed
      && db.prescriptions == old(db.prescriptions)[id := DispensedRecord(old(db.prescriptions)[id], caller, now)]
  {
    if id !in db.prescriptions {
      return PrescriptionNotFound;
    }
    var p := db.prescriptions[id];
    if p.status != Sent && p.status != Signed {
      return NotReady;
    }
    db.prescriptions := db.prescriptions[id := DispensedRecord(p, caller, now)];
    reply := PrescriptionDispensed;
  }

  /** Dispensed is final: the relation the three operations' contracts keep to has no step
      out of it. */
  lemma DispensedIsFinal(to: PrescriptionStatus)
    ensures !Transition(Dispensed, to)
  {
  }

  /** Signing is optional before dispensing: a draft can be sent and the sent prescription
      dispensed, so it is dispensed with no signature. */
  lemma DispenseWithoutSignature(p: Prescription, pharmacy: Id, pharmacist: Id, t1: int, t2: int)
    requires p.status == Draft && p.signedAt.None?
    ensures Transition(Draft, Sent) && Transition(Sent, Dispensed)
    ensures DispensedRecord(SentRecord(p, pharmacy, t1), pharmacist, t2).status == Dispensed
    ensures DispensedRecord(SentRecord(p, pharmacy, t1), pharmacist, t2).signedAt.None?
  {
  }

  /** Every stored prescription passed `save`. */
  predicate AllSaveable(ps: map<Id, Prescription>)
  {
    forall id :: id in ps ==> PrescriptionSaveable(ps[id])
  }

  /** The life-cycle records keep every field `save` checks, so they keep the store valid. */
  lemma LifeCycleKeepsSaveable(ps: map<Id, Prescription>, id: Id, who: Id, at: int)
    requires AllSaveable(ps) && id in ps
    ensures AllSaveable(ps[id := SignedRecord(ps[id], who, at)])
    ensures AllSaveable(ps[id := SentRecord(ps[id], who, at)])
    ensures AllSaveable(ps[id := DispensedRecord(ps[id], who, at)])
  {
    assert PrescriptionSaveable(ps[id]);
  }

  /** Every prescription a consultation lists exists. */
  predicate ConsultationLinksExist(cs: map<Id, Records.Consultation>, ps: map<Id, Prescription>)
  {
    forall c, k :: c in cs && 0 <= k < |cs[c].prescriptions| ==> cs[c].prescriptions[k] in ps
  }

  /** Creation keeps the store valid and every consultation's list pointing at existing
      prescriptions, and lists the new one under its consultation when that exists. */
  lemma CreateKeepsStoreValid(cs: map<Id, Records.Consultation>, ps: map<Id, Prescription>,
                              r: PrescriptionRequest, caller: Id, now: int, newId: Id)
    requires AllSaveable(ps) && ConsultationLinksExist(cs, ps)
    requires Creatable(r, caller, now)
    ensures AllSaveable(ps[newId := Built(r, caller, now)])
    ensures ConsultationLinksExist(Linked(cs, Built(r, caller, now).consultation.value, newId), ps[newId := Built(r, caller, now)])
    ensures var cid := Built(r, caller, now).consultation.value;
      cid in cs ==> newId in Linked(cs, cid, newId)[cid].prescriptions
  {
    var p := Built(r, caller, now);
    var cid := p.consultation.value;
    var cs' := Linked(cs, cid, newId);
    var ps' := ps[newId := p];
    forall c, k | c in cs' && 0 <= k < |cs'[c].prescriptions|
      ensures cs'[c].prescriptions[k] in ps'
    {
      if c == cid && k == |cs[c].prescriptions| {
        assert cs'[c].prescriptions[k] == newId;
      } else {
        assert cs'[c].prescriptions[k] == cs[c].prescriptions[k];
      }
    }
    if cid in cs {
      assert cs'[cid].prescriptions[|cs[cid].prescriptions|] == newId;
    }
  }
}
