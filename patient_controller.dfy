/** `patientController.js`: creating, updating and deleting patient records, at most one per
    user account. */
module PatientController {
  import opened Common
  import opened Text
  import opened Validator
  import opened Records
  import opened Store

  predicate IsHexDigit(c: char)
  {
    '0' <= c <= '9' || 'a' <= c <= 'f' || 'A' <= c <= 'F'
  }

  /** `mongoose.Types.ObjectId.isValid` on a string: 24 hexadecimal digits. */
  predicate IsObjectId(s: string)
  {
    |s| == 24 && forall k :: 0 <= k < |s| ==> IsHexDigit(s[k])
  }

  /** Some patient record belongs to user `uid`. */
  predicate HasPatientFor(patients: map<Id, Patient>, uid: Id)
  {
    exists id :: id in patients && patients[id].user == uid
  }

  /** The stored address: the schema's `country` default fills a missing country, also when
      the request gives no address at all. */
  function NewAddress(a: Option<AddressRequest>): (r: Address)
    ensures r.country.Some?
    ensures a.None? ==> r == Address(None, None, None, Some(DefaultCountry))
    ensures a.Some? && a.value.country.Some? ==> r.country == a.value.country
  {
    if a.None? then Address(None, None, None, Some(DefaultCountry))
    else Address(a.value.street, a.value.city, a.value.zipCode,
                 if a.value.country.Some? then a.value.country else Some(DefaultCountry))
  }

  /** An address given in an update replaces the stored one as sent; update queries apply no
      defaults. */
  function PatchedAddress(a: AddressRequest): Address
  {
    Address(a.street, a.city, a.zipCode, a.country)
  }

  function ContactOf(c: ContactRequest): Contact
  {
    Contact(c.name, c.relationship, c.phone)
  }

  /** `new Patient({ user: userId, ...patientData })`: the names pass the schema's trim. */
  function NewPatient(r: PatientRequest, now: int): Patient
    requires ValidCreatePatient(r, now)
  {
    Records.Patient.Patient(r.userId.value, Trim(r.firstName.value), Trim(r.lastName.value), r.dateOfBirth.value,
            ParseGender(r.gender.value).value, r.phone.value, NewAddress(r.address),
            if r.emergencyContact.Some? then Some(ContactOf(r.emergencyContact.value)) else None)
  }

  /** The new record belongs to the requested user, carries trimmed names of 1 to 50
      characters and an address with a country. */
  lemma NewPatientFields(r: PatientRequest, now: int)
    requires ValidCreatePatient(r, now)
    ensures NewPatient(r, now).user == r.userId.value
    ensures 1 <= |NewPatient(r, now).firstName| <= 50 && Trim(NewPatient(r, now).firstName) == NewPatient(r, now).firstName
    ensures 1 <= |NewPatient(r, now).lastName| <= 50 && Trim(NewPatient(r, now).lastName) == NewPatient(r, now).lastName
    ensures NewPatient(r, now).dateOfBirth <= now
    ensures NewPatient(r, now).address.country.Some?
    ensures IsPhone(NewPatient(r, now).phone)
  {
    TrimmedName(r.firstName.value, 50);
    TrimmedName(r.lastName.value, 50);
  }

  /** `findByIdAndUpdate(id, body)`: each given field replaces the stored one, names trimmed;
      the schema has no `user` key, so the owner never changes. */
  function PatchedPatient(p: Patient, u: PatientPatch): Patient
  {
    p.(firstName := if u.firstName.Some? then Trim(u.firstName.value) else p.firstName,
       lastName := if u.lastName.Some? then Trim(u.lastName.value) else p.lastName,
       dateOfBirth := if u.dateOfBirth.Some? then u.dateOfBirth.value else p.dateOfBirth,
       gender := if u.gender.Some? && ParseGender(u.gender.value).Some? then ParseGender(u.gender.value).value else p.gender,
       phone := if u.phone.Some? then u.phone.value else p.phone,
       address := if u.address.Some? then PatchedAddress(u.address.value) else p.address,
       emergencyContact := if u.emergencyContact.Some? then Some(ContactOf(u.emergencyContact.value)) else p.emergencyContact)
  }

  /** A patch keeps the owner, sets every field it names, and leaves the record as it was
      when it names none. */
  lemma PatchedPatientFields(p: Patient, u: PatientPatch)
    ensures PatchedPatient(p, u).user == p.user
    ensures u.firstName.Some? ==> PatchedPatient(p, u).firstName == Trim(u.firstName.value)
    ensures u.lastName.Some? ==> PatchedPatient(p, u).lastName == Trim(u.lastName.value)
    ensures u.phone.Some? ==> PatchedPatient(p, u).phone == u.phone.value
    ensures u.dateOfBirth.Some? ==> PatchedPatient(p, u).dateOfBirth == u.dateOfBirth.value
    ensures !PatientPatchNonEmpty(u) ==> PatchedPatient(p, u) == p
  {
  }

  /** The permission check of `updatePatient`: a caller with role `patient` may update only
      the record of their own account; every other role may update any record. */
  predicate MayUpdate(caller: Id, callerRole: Role, p: Patient)
  {
    callerRole != Role.Patient || p.user == caller
  }

  /** Joi's joined messages are not modelled; only the status code is. */
  const SchemaRefused: Reply := Reply(400, "Validation failed")
  const InvalidUserId: Reply := Reply(400, "Invalid userId")
  const PatientExists: Reply := Reply(409, "Patient record already exists for this user")
  const PatientCreated: Reply := Reply(201, "Patient record created successfully")
  const PatientNotFound: Reply := Reply(404, "Patient not found")
  const NotOwnRecord: Reply := Reply(403, "You can only update your own patient record")
  const PatientUpdated: Reply := Reply(200, "Patient record updated successfully")
  const PatientDeleted: Reply := Reply(200, "Patient record deleted successfully")

  /** `createPatient`: the schema, the id format, then the one-record-per-user check. */
  method CreatePatient(db: Db, r: PatientRequest, now: int, newId: Id) returns (reply: Reply)
    requires newId !in db.patients
    modifies db`patients
    ensures !ValidCreatePatient(r, now) ==> reply == SchemaRefused && db.patients == old(db.patients)
    ensures ValidCreatePatient(r, now) && !IsObjectId(r.userId.value) ==>
      reply == InvalidUserId && db.patients == old(db.patients)
    ensures ValidCreatePatient(r, now) && IsObjectId(r.userId.value) && HasPatientFor(old(db.patients), r.userId.value) ==>
      reply == PatientExists && db.patients == old(db.patients)
    ensures ValidCreatePatient(r, now) && IsObjectId(r.userId.value) && !HasPatientFor(old(db.patients), r.userId.value) ==>
      reply == PatientCreated && db.patients == old(db.patients)[newId := NewPatient(r, now)]
  {
    if !ValidCreatePatient(r, now) {
      return SchemaRefused;
    }
    if !IsObjectId(r.userId.value) {
      return InvalidUserId;
    }
    if HasPatientFor(db.patients, r.userId.value) {
      return PatientExists;
    }
    db.patients := db.patients[newId := NewPatient(r, now)];
    reply := PatientCreated;
  }

  /** `updatePatient`: the schema, the record's existence, then the permission check. */
  method UpdatePatient(db: Db, id: Id, u: PatientPatch, caller: Id, callerRole: Role, now: int) returns (reply: Reply)
    modifies db`patients
    ensures !ValidUpdatePatient(u, now) ==> reply == SchemaRefused && db.patients == old(db.patients)
    ensures ValidUpdatePatient(u, now) && id !in old(db.patients) ==>
      reply == PatientNotFound && db.patients == old(db.patients)
    ensures ValidUpdatePatient(u, now) && id in old(db.patients) && !MayUpdate(caller, callerRole, old(db.patients)[id]) ==>
      reply == NotOwnRecord && db.patients == old(db.patients)
    ensures ValidUpdatePatient(u, now) && id in old(db.patients) && MayUpdate(caller, callerRole, old(db.patients)[id]) ==>
      reply == PatientUpdated && db.patients == old(db.patients)[id := PatchedPatient(old(db.patients)[id], u)]
  {
    if !ValidUpdatePatient(u, now) {
      return SchemaRefused;
    }
    if id !in db.patients {
      return PatientNotFound;
    }
    if !MayUpdate(caller, callerRole, db.patients[id]) {
      return NotOwnRecord;
    }
    db.patients := db.patients[id := PatchedPatient(db.patients[id], u)];
    reply := PatientUpdated;
  }

  /** `deletePatient`: exactly the named record goes. */
  method DeletePatient(db: Db, id: Id) returns (reply: Reply)
    modifies db`patients
    ensures id !in old(db.patients) ==> reply == PatientNotFound && db.patients == old(db.patients)
    ensures id in old(db.patients) ==> reply == PatientDeleted && db.patients == old(db.patients) - {id}
  {
    if id !in db.patients {
      return PatientNotFound;
    }
    db.patients := db.patients - {id};
    reply := PatientDeleted;
  }

  // ---------------------------------------------------------------------------
  // one record per user

  /** A creation the duplicate check lets through keeps at most one record per user, and
      afterwards the user has a record, so a second creation for them is refused. */
  lemma CreateKeepsOnePatientPerUser(ps: map<Id, Patient>, r: PatientRequest, now: int, newId: Id)
    requires OnePatientPerUser(ps) && newId !in ps
    requires ValidCreatePatient(r, now) && !HasPatientFor(ps, r.userId.value)
    ensures OnePatientPerUser(ps[newId := NewPatient(r, now)])
    ensures HasPatientFor(ps[newId := NewPatient(r, now)], r.userId.value)
  {
    var qs := ps[newId := NewPatient(r, now)];
    assert qs[newId].user == r.userId.value;
    forall p, q | p in qs && q in qs && p != q
      ensures qs[p].user != qs[q].user
    {
      if p == newId {
        assert qs[q] == ps[q];
      } else if q == newId {
        assert qs[p] == ps[p];
      }
    }
  }

  /** Updates never move a record to another user, and deletions only remove; both keep at
      most one record per user. */
  lemma UpdateAndDeleteKeepOnePatientPerUser(ps: map<Id, Patient>, id: Id, u: PatientPatch)
    requires OnePatientPerUser(ps) && id in ps
    ensures OnePatientPerUser(ps[id := PatchedPatient(ps[id], u)])
    ensures OnePatientPerUser(ps - {id})
  {
    var qs := ps[id := PatchedPatient(ps[id], u)];
    assert forall k :: k in qs ==> qs[k].user == ps[k].user;
  }
}
