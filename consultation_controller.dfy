/** `consultationController.js`: creating, updating and deleting consultations. */
module ConsultationController {
  import opened Common
  import opened Records
  import AppointmentModel
  import opened Store

  /** The schema's bound on `notes`. */
  const ConsultationNotesMax: nat := 2000

  /** The fields of a create request the model keeps. */
  datatype ConsultationRequest = ConsultationRequest(
    appointmentId: Option<Id>, patientId: Option<Id>, doctorId: Option<Id>, notes: Option<string>)

  /** The consultation `createConsultation` builds: dated now, in progress, with no
      prescriptions or lab orders yet. */
  function NewConsultation(r: ConsultationRequest, now: int): (c: Consultation)
    requires Truthy(r.patientId) && Truthy(r.doctorId)
    ensures c.status == ConsultationInProgress && c.consultationDate == now
    ensures c.prescriptions == [] && c.labOrders == []
    ensures c.appointment.Some? <==> Truthy(r.appointmentId)
  {
    Consultation(OrElse(r.appointmentId, None), r.patientId.value, r.doctorId.value, now, r.notes,
                 ConsultationInProgress, [], [])
  }

  /** What `save` checks of the modelled fields: the bound on the notes. */
  predicate NotesBounded(c: Consultation)
  {
    c.notes.None? || |c.notes.value| <= ConsultationNotesMax
  }

  /** `$set: { consultation: cid }` on appointment `aid`, when it exists. */
  function AttachConsultation(apps: map<Id, AppointmentModel.Appointment>, aid: Id, cid: Id): (r: map<Id, AppointmentModel.Appointment>)
    ensures r.Keys == apps.Keys
    ensures forall a :: a in apps && a != aid ==> r[a] == apps[a]
    ensures aid in apps ==> r[aid] == apps[aid].(consultation := Some(cid))
  {
    if aid in apps then apps[aid := apps[aid].(consultation := Some(cid))] else apps
  }

  const IdsRequired: Reply := Reply(400, "patientId and doctorId are required")
  /** The 201 reply carries the consultation and no message. */
  const ConsultationCreated: Reply := Reply(201, "")
  const ConsultationNotFound: Reply := Reply(404, "Consultation not found")
  /** The 200 reply of an update carries the consultation and no message. */
  const ConsultationUpdated: Reply := Reply(200, "")
  const ConsultationDeleted: Reply := Reply(200, "Consultation deleted")
  /** Mongoose's validation message is not modelled; only the status code is. */
  const SaveFailed: Reply := Reply(500, "Validation failed")

  /** `createConsultation`: both ids are required; after the save, a given appointment is
      pointed at the new consultation. */
  method CreateConsultation(db: Db, r: ConsultationRequest, now: int, newId: Id) returns (reply: Reply)
    requires newId !in db.consultations
    modifies db`consultations, db`appointments
    ensures !(Truthy(r.patientId) && Truthy(r.doctorId)) ==>
      reply == IdsRequired && db.consultations == old(db.consultations) && db.appointments == old(db.appointments)
    ensures Truthy(r.patientId) && Truthy(r.doctorId) && !NotesBounded(NewConsultation(r, now)) ==>
      reply == SaveFailed && db.consultations == old(db.consultations) && db.appointments == old(db.appointments)
    ensures Truthy(r.patientId) && Truthy(r.doctorId) && NotesBounded(NewConsultation(r, now)) ==>
      reply == ConsultationCreated
      && db.consultations == old(db.consultations)[newId := NewConsultation(r, now)]
      && db.appointments == (if Truthy(r.appointmentId)
                             then AttachConsultation(old(db.appointments), r.appointmentId.value, newId)
                             else old(db.appointments))
  {
    if !Truthy(r.patientId) || !Truthy(r.doctorId) {
      return IdsRequired;
    }
    var c := NewConsultation(r, now);
    if !NotesBounded(c) {
      return SaveFailed;
    }
    db.consultations := db.consultations[newId := c];
    if Truthy(r.appointmentId) {
      db.appointments := AttachConsultation(db.appointments, r.appointmentId.value, newId);
    }
    reply := ConsultationCreated;
  }

  /** The status a string names: an enumerated spelling, or the string itself. */
  function ParseConsultationStatus(s: string): ConsultationStatus
  {
    if s == "in-progress" then ConsultationInProgress
    else if s == "completed" then ConsultationCompleted
    else if s == "cancelled" then ConsultationCancelled
    else UnlistedStatus(s)
  }

  /** The string stored for a status. */
  function ConsultationStatusName(st: ConsultationStatus): string
  {
    match st
    case ConsultationInProgress => "in-progress"
    case ConsultationCompleted => "completed"
    case ConsultationCancelled => "cancelled"
    case UnlistedStatus(name) => name
  }

  /** The three spellings of the enumeration. */
  predicate IsListedStatus(s: string)
  {
    s == "in-progress" || s == "completed" || s == "cancelled"
  }

  /** Every status string is stored as given, and it lands outside the enumeration exactly
      when it is not one of the three spellings. */
  lemma ConsultationStatusRoundTrip(s: string)
    ensures ConsultationStatusName(ParseConsultationStatus(s)) == s
    ensures ParseConsultationStatus(s).UnlistedStatus? <==> !IsListedStatus(s)
  {
  }

  /** The keys of an update body the model keeps: the three references (`appointment` may be
      set to `null`, the inner `None`), the date, the notes and the status string. */
  datatype ConsultationPatch = ConsultationPatch(
    appointment: Option<Option<Id>>, patient: Option<Id>, doctor: Option<Id>, consultationDate: Option<int>,
    notes: Option<string>, status: Option<string>)

  /** The patch that names only the notes. */
  function NotesPatch(notes: string): ConsultationPatch
  {
    ConsultationPatch(None, None, None, None, Some(notes), None)
  }

  /** `findByIdAndUpdate(id, body)`: each key of the body overwrites the stored field. */
  function PatchedConsultation(c: Consultation, p: ConsultationPatch): Consultation
  {
    c.(appointment := if p.appointment.Some? then p.appointment.value else c.appointment,
       patient := if p.patient.Some? then p.patient.value else c.patient,
       doctor := if p.doctor.Some? then p.doctor.value else c.doctor,
       consultationDate := if p.consultationDate.Some? then p.consultationDate.value else c.consultationDate,
       notes := if p.notes.Some? then p.notes else c.notes,
       status := if p.status.Some? then ParseConsultationStatus(p.status.value) else c.status)
  }

  /** `updateConsultation`: `findByIdAndUpdate` with the body and no `runValidators`, so the
      patch may rewrite any field it names and store any status string. */
  method UpdateConsultation(db: Db, id: Id, p: ConsultationPatch) returns (reply: Reply)
    modifies db`consultations
    ensures id !in old(db.consultations) ==> reply == ConsultationNotFound && db.consultations == old(db.consultations)
    ensures id in old(db.consultations) ==>
      reply == ConsultationUpdated
      && db.consultations == old(db.consultations)[id := PatchedConsultation(old(db.consultations)[id], p)]
  {
    if id !in db.consultations {
      return ConsultationNotFound;
    }
    db.consultations := db.consultations[id := PatchedConsultation(db.consultations[id], p)];
    reply := ConsultationUpdated;
  }

  /** `deleteConsultation`. */
  method DeleteConsultation(db: Db, id: Id) returns (reply: Reply)
    modifies db`consultations
    ensures id !in old(db.consultations) ==> reply == ConsultationNotFound && db.consultations == old(db.consultations)
    ensures id in old(db.consultations) ==> reply == ConsultationDeleted && db.consultations == old(db.consultations) - {id}
  {
    if id !in db.consultations {
      return ConsultationNotFound;
    }
    db.consultations := db.consultations - {id};
    reply := ConsultationDeleted;
  }

  /** Every stored consultation keeps the notes bound. */
  predicate AllNotesBounded(cs: map<Id, Consultation>)
  {
    forall id :: id in cs ==> NotesBounded(cs[id])
  }

  /** Creation and deletion keep the notes bound of every stored consultation. */
  lemma CreateAndDeleteKeepNotesBounded(cs: map<Id, Consultation>, r: ConsultationRequest, now: int, newId: Id, id: Id)
    requires AllNotesBounded(cs) && Truthy(r.patientId) && Truthy(r.doctorId)
    requires NotesBounded(NewConsultation(r, now))
    ensures AllNotesBounded(cs[newId := NewConsultation(r, now)])
    ensures AllNotesBounded(cs - {id})
  {
  }

  /** The update does not validate: a patch can store notes longer than `save` accepts,
      and with that break the bound creation keeps. */
  lemma UpdateSkipsNotesBound(c: Consultation, notes: string)
    requires |notes| > ConsultationNotesMax
    ensures !NotesBounded(PatchedConsultation(c, NotesPatch(notes)))
    ensures PatchedConsultation(c, NotesPatch(notes)).status == c.status
  {
  }

  /** Nor does it check the enumeration: a status such as `closed` is stored as given, and
      the patient and doctor of a consultation can be rewritten. */
  lemma UpdateSkipsSchema(c: Consultation, status: string, patient: Id, doctor: Id)
    requires !IsListedStatus(status)
    ensures var q := PatchedConsultation(c, ConsultationPatch(None, Some(patient), Some(doctor), None, None, Some(status)));
      q.status == UnlistedStatus(status) && q.patient == patient && q.doctor == doctor
    ensures PatchedConsultation(c, ConsultationPatch(None, None, None, None, None, Some("closed"))).status.UnlistedStatus?
  {
  }

  /** A patch changes the fields it names and nothing else; an empty patch changes nothing. */
  lemma PatchTouchesOnlyNamedFields(c: Consultation, p: ConsultationPatch)
    ensures PatchedConsultation(c, p).(appointment := c.appointment, patient := c.patient, doctor := c.doctor,
                                       consultationDate := c.consultationDate, notes := c.notes, status := c.status) == c
    ensures p == ConsultationPatch(None, None, None, None, None, None) ==> PatchedConsultation(c, p) == c
    ensures p.appointment.Some? ==> PatchedConsultation(c, p).appointment == p.appointment.value
    ensures p.patient.Some? ==> PatchedConsultation(c, p).patient == p.patient.value
    ensures p.doctor.Some? ==> PatchedConsultation(c, p).doctor == p.doctor.value
    ensures p.consultationDate.Some? ==> PatchedConsultation(c, p).consultationDate == p.consultationDate.value
    ensures p.notes.Some? ==> PatchedConsultation(c, p).notes == p.notes
    ensures p.status.Some? ==> ConsultationStatusName(PatchedConsultation(c, p).status) == p.status.value
  {
    if p.status.Some? {
      ConsultationStatusRoundTrip(p.status.value);
    }
  }
}
