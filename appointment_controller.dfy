/** `appointmentController.js`: booking, rescheduling, cancelling and completing
    appointments, and the availability view of one doctor's day. */
module AppointmentController {
  import opened Common
  import opened Text
  import opened TimeOfDay
  import opened AppointmentModel
  import opened Validator
  import Records
  import opened Store

  const MsPerDay: int := 86400000

  /** Midnight of the day containing instant `t`, as `setHours(0, 0, 0, 0)` computes it
      (the server's time zone is taken to be UTC). */
  function StartOfDay(t: int): (m: int)
    ensures m <= t < m + MsPerDay
    ensures m % MsPerDay == 0
  {
    t - t % MsPerDay
  }

  /** The stored duration: the end's minutes since midnight minus the start's, each read
      hour by hour and minute by minute. */
  function Duration(start: string, end: string): (d: int)
    requires IsTime(start) && IsTime(end)
    ensures d == (Hour(end) * 60 + Minute(end)) - (Hour(start) * 60 + Minute(start))
    ensures -24 * 60 < d < 24 * 60
  {
    TimeMeaning(start);
    TimeMeaning(end);
    TimeMinutes(end) - TimeMinutes(start)
  }

  /** Nothing requires the end to follow the start: a slot from 10:00 to 09:00 is stored
      with a duration of -60 and an empty slot with 0. */
  lemma DurationNotPositive()
    ensures Duration("10:00", "09:00") == -60
    ensures Duration("09:00", "09:00") == 0
  {
    TimeMeaning("10:00");
    TimeMeaning("09:00");
  }

  /** The roles that may be booked as the doctor of an appointment. */
  predicate IsDoctorRole(r: Role) { r == Medecin || r == Admin }

  /** The record `createAppointment` stores for an accepted request. */
  function NewAppointment(r: AppointmentRequest, caller: Id): (a: Appointment)
    requires r.patientId.Some? && r.doctorId.Some? && r.appointmentDate.Some? && r.reason.Some?
    requires r.startTime.Some? && IsTime(r.startTime.value)
    requires r.endTime.Some? && IsTime(r.endTime.value)
    requires r.kind.Some? ==> ParseType(r.kind.value).Some?
    ensures a.status == DefaultStatus && IsActive(a.status)
    ensures a.kind == (if r.kind.Some? then ParseType(r.kind.value).value else DefaultType)
    ensures a.duration == Duration(r.startTime.value, r.endTime.value)
    ensures a.patient == r.patientId.value && a.doctor == r.doctorId.value && a.createdBy == caller
    ensures a.date == r.appointmentDate.value && a.startTime == r.startTime.value && a.endTime == r.endTime.value
    ensures a.cancelledBy.None? && a.cancellationReason.None? && a.cancelledAt.None?
    ensures a.diagnosis.None? && a.prescription.None? && !a.reminderSent && a.consultation.None?
  {
    Appointment(
      r.patientId.value, r.doctorId.value, r.appointmentDate.value,
      r.startTime.value, r.endTime.value, Duration(r.startTime.value, r.endTime.value),
      r.reason.value, if r.kind.Some? then ParseType(r.kind.value).value else DefaultType,
      DefaultStatus, r.notes, None, None, None, None, None, false, caller, None)
  }

  const PatientNotFound: Reply := Reply(404, "Patient not found")
  const DoctorNotFound: Reply := Reply(404, "Doctor not found")
  const NotADoctor: Reply := Reply(400, "Selected user is not a doctor")
  const InThePast: Reply := Reply(400, "Cannot schedule appointments in the past")
  const SlotTaken: Reply := Reply(409, "Time slot not available. The doctor already has an appointment at this time.")
  const Created: Reply := Reply(201, "Appointment created successfully")
  const AppointmentNotFound: Reply := Reply(404, "Appointment not found")
  const SlotUnavailable: Reply := Reply(409, "Time slot not available")
  const Updated: Reply := Reply(200, "Appointment updated successfully")
  const AlreadyCancelled: Reply := Reply(400, "Appointment is already cancelled")
  const CompletedCannotCancel: Reply := Reply(400, "Cannot cancel a completed appointment")
  const CancelledOk: Reply := Reply(200, "Appointment cancelled successfully")
  const CompletedOk: Reply := Reply(200, "Appointment marked as completed")
  const ServerError: Reply := Reply(500, "Server error")
  /** Joi's own messages, joined, are not modelled; only the status code is. */
  const SchemaRefused: Reply := Reply(400, "Validation failed")

  // ---------------------------------------------------------------------------
  // createAppointment

  /** Every check of `createAppointment` passes. */
  predicate CreateAdmitted(patients: map<Id, Records.Patient>, users: map<Id, Records.User>,
                           apps: map<Id, Appointment>, r: AppointmentRequest, now: int)
  {
    && ValidCreateAppointment(r, now)
    && r.patientId.value in patients
    && r.doctorId.value in users
    && IsDoctorRole(users[r.doctorId.value].role)
    && r.appointmentDate.value >= StartOfDay(now)
    && !CheckConflict(apps, r.doctorId.value, r.appointmentDate.value, r.startTime.value, r.endTime.value, None)
  }

  /** `createAppointment`: the schema, the patient, the doctor, the doctor's role, the date
      and the conflict query, in that order; the first failing check decides the reply and
      nothing is stored. */
  method CreateAppointment(db: Db, r: AppointmentRequest, caller: Id, now: int, newId: Id)
    returns (reply: Reply)
    requires newId !in db.appointments
    modifies db`appointments
    ensures !ValidCreateAppointment(r, now) ==> reply.code == 400
    ensures ValidCreateAppointment(r, now) ==>
      reply == (if r.patientId.value !in db.patients then PatientNotFound
                else if r.doctorId.value !in db.users then DoctorNotFound
                else if !IsDoctorRole(db.users[r.doctorId.value].role) then NotADoctor
                else if r.appointmentDate.value < StartOfDay(now) then InThePast
                else if CheckConflict(old(db.appointments), r.doctorId.value, r.appointmentDate.value,
                                      r.startTime.value, r.endTime.value, None) then SlotTaken
                else Created)
    ensures CreateAdmitted(db.patients, db.users, old(db.appointments), r, now) ==>
      db.appointments == old(db.appointments)[newId := NewAppointment(r, caller)]
    ensures !CreateAdmitted(db.patients, db.users, old(db.appointments), r, now) ==>
      db.appointments == old(db.appointments)
  {
    if !ValidCreateAppointment(r, now) {
      return SchemaRefused;
    }
    var patientId, doctorId := r.patientId.value, r.doctorId.value;
    if patientId !in db.patients {
      return PatientNotFound;
    }
    if doctorId !in db.users {
      return DoctorNotFound;
    }
    var doctor := db.users[doctorId];
    if doctor.role != Medecin && doctor.role != Admin {
      return NotADoctor;
    }
    if r.appointmentDate.value < StartOfDay(now) {
      return InThePast;
    }
    var hasConflict := CheckConflict(db.appointments, doctorId, r.appointmentDate.value,
                                     r.startTime.value, r.endTime.value, None);
    if hasConflict {
      return SlotTaken;
    }
    db.appointments := db.appointments[newId := NewAppointment(r, caller)];
    reply := Created;
  }

  /** The past-date check can never fire: the schema already demands a date no earlier than
      `now`, which is no earlier than midnight. */
  lemma PastDateCheckUnreachable(r: AppointmentRequest, now: int)
    requires ValidCreateAppointment(r, now)
    ensures r.appointmentDate.value >= StartOfDay(now)
  {
  }

  /** A booking that passed the conflict query keeps the calendar free of double bookings. */
  lemma CreateKeepsNoDoubleBooking(apps: map<Id, Appointment>, r: AppointmentRequest, caller: Id, newId: Id, now: int)
    requires NoDoubleBooking(apps)
    requires ValidCreateAppointment(r, now)
    requires !CheckConflict(apps, r.doctorId.value, r.appointmentDate.value, r.startTime.value, r.endTime.value, None)
    ensures NoDoubleBooking(apps[newId := NewAppointment(r, caller)])
  {
    var a := NewAppointment(r, caller);
    ExclusionWeakens(apps, newId, a.doctor, a.date, a.startTime, a.endTime);
    CheckedStoreKeepsNoDoubleBooking(apps, newId, a);
  }

  // ---------------------------------------------------------------------------
  // updateAppointment

  /** The update names a date or a time: `appointmentDate || startTime || endTime`. */
  predicate TouchesSchedule(p: AppointmentPatch)
  {
    p.appointmentDate.Some? || Truthy(p.startTime) || Truthy(p.endTime)
  }

  /** The date and times the conflict query of an update is run on: each new value, or
      the stored one. */
  function MergedDate(a: Appointment, p: AppointmentPatch): int
  {
    if p.appointmentDate.Some? then p.appointmentDate.value else a.date
  }

  function MergedStart(a: Appointment, p: AppointmentPatch): string
  {
    OrElse(p.startTime, Some(a.startTime)).value
  }

  function MergedEnd(a: Appointment, p: AppointmentPatch): string
  {
    OrElse(p.endTime, Some(a.endTime)).value
  }

  /** The update refuses the patch for a clash with another active appointment. */
  predicate UpdateConflicts(apps: map<Id, Appointment>, id: Id, p: AppointmentPatch)
    requires id in apps
  {
    TouchesSchedule(p)
    && CheckConflict(apps, apps[id].doctor, MergedDate(apps[id], p), MergedStart(apps[id], p), MergedEnd(apps[id], p), Some(id))
  }

  /** A time the schema accepted is truthy, so `startTime || stored` picks it, and an
      absent one leaves the stored time. */
  lemma GivenTimesWin(a: Appointment, p: AppointmentPatch)
    requires ValidUpdateAppointment(p)
    ensures MergedStart(a, p) == if p.startTime.Some? then p.startTime.value else a.startTime
    ensures MergedEnd(a, p) == if p.endTime.Some? then p.endTime.value else a.endTime
  {
    if p.startTime.Some? {
      assert |p.startTime.value| >= 4;
    }
    if p.endTime.Some? {
      assert |p.endTime.value| >= 4;
    }
  }

  /** The record after `findByIdAndUpdate(id, body)`: every given field overwrites the stored
      one; the duration is not recomputed. */
  function Patched(a: Appointment, p: AppointmentPatch): Appointment
    requires ValidUpdateAppointment(p)
  {
    var kind := if p.kind.Some? then ParseType(p.kind.value).value else a.kind;
    var status := if p.status.Some? then ParseStatus(p.status.value).value else a.status;
    a.(date := MergedDate(a, p),
       startTime := if p.startTime.Some? then p.startTime.value else a.startTime,
       endTime := if p.endTime.Some? then p.endTime.value else a.endTime,
       reason := if p.reason.Some? then p.reason.value else a.reason,
       kind := kind,
       status := status,
       notes := if p.notes.Some? then p.notes else a.notes,
       diagnosis := if p.diagnosis.Some? then p.diagnosis else a.diagnosis,
       prescription := if p.prescription.Some? then p.prescription else a.prescription)
  }

  /** A patch moves the appointment to the merged date and times the conflict query was run
      on, and never changes its doctor, patient, creator or duration; without a status it
      keeps the status. */
  lemma PatchedFields(a: Appointment, p: AppointmentPatch)
    requires ValidUpdateAppointment(p)
    ensures Patched(a, p).doctor == a.doctor && Patched(a, p).patient == a.patient
    ensures Patched(a, p).createdBy == a.createdBy && Patched(a, p).duration == a.duration
    ensures Patched(a, p).date == MergedDate(a, p)
    ensures Patched(a, p).startTime == MergedStart(a, p) && Patched(a, p).endTime == MergedEnd(a, p)
    ensures p.status.None? ==> Patched(a, p).status == a.status
    ensures p.status.Some? ==> Patched(a, p).status == ParseStatus(p.status.value).value
  {
    GivenTimesWin(a, p);
  }

  /** `updateAppointment`: the schema, the appointment, then, only when the date or a time
      changes, the conflict query for the appointment's own doctor excluding itself. */
  method UpdateAppointment(db: Db, id: Id, p: AppointmentPatch) returns (reply: Reply)
    modifies db`appointments
    ensures !ValidUpdateAppointment(p) ==> reply.code == 400 && db.appointments == old(db.appointments)
    ensures ValidUpdateAppointment(p) && id !in old(db.appointments) ==>
      reply == AppointmentNotFound && db.appointments == old(db.appointments)
    ensures ValidUpdateAppointment(p) && id in old(db.appointments) && UpdateConflicts(old(db.appointments), id, p) ==>
      reply == SlotUnavailable && db.appointments == old(db.appointments)
    ensures ValidUpdateAppointment(p) && id in old(db.appointments) && !UpdateConflicts(old(db.appointments), id, p) ==>
      reply == Updated && db.appointments == old(db.appointments)[id := Patched(old(db.appointments)[id], p)]
  {
    if !ValidUpdateAppointment(p) {
      return SchemaRefused;
    }
    if id !in db.appointments {
      return AppointmentNotFound;
    }
    var a := db.appointments[id];
    if TouchesSchedule(p) {
      var newDate := MergedDate(a, p);
      var newStart := MergedStart(a, p);
      var newEnd := MergedEnd(a, p);
      if CheckConflict(db.appointments, a.doctor, newDate, newStart, newEnd, Some(id)) {
        return SlotUnavailable;
      }
    }
    db.appointments := db.appointments[id := Patched(a, p)];
    reply := Updated;
  }

  /** A reschedule that passed its conflict query keeps the calendar free of double
      bookings, whatever else the patch changes. */
  lemma RescheduleKeepsNoDoubleBooking(apps: map<Id, Appointment>, id: Id, p: AppointmentPatch)
    requires NoDoubleBooking(apps)
    requires id in apps && ValidUpdateAppointment(p) && TouchesSchedule(p)
    requires !UpdateConflicts(apps, id, p)
    ensures NoDoubleBooking(apps[id := Patched(apps[id], p)])
  {
    PatchedFields(apps[id], p);
    CheckedStoreKeepsNoDoubleBooking(apps, id, Patched(apps[id], p));
  }

  /** Two bookings of one doctor for 09:00-10:00 on the same day, the second one cancelled. */
  function MorningBooking(): Appointment
  {
    Appointment("p1", "d1", 0, "09:00", "10:00", 60, "checkup", Consultation, Scheduled,
                None, None, None, None, None, None, false, "u1", None)
  }

  lemma MorningClocks()
    ensures ClockOf("09:00") == 540 && ClockOf("09:15") == 555 && ClockOf("09:30") == 570
  {
    ClockAt("09:00", 9, 0);
    ClockAt("09:15", 9, 15);
    ClockAt("09:30", 9, 30);
  }

  lemma LaterClocks()
    ensures ClockOf("09:45") == 585 && ClockOf("10:00") == 600
  {
    ClockAt("09:45", 9, 45);
    ClockAt("10:00", 10, 0);
  }

  function TwoMorningBookings(): map<Id, Appointment>
  {
    map["a1" := MorningBooking(), "a2" := MorningBooking().(status := Cancelled)]
  }

  /** An update that carries only a status skips the conflict query, so setting a cancelled
      booking back to `scheduled` double-books the doctor. */
  lemma StatusOnlyUpdateCanDoubleBook()
    ensures NoDoubleBooking(TwoMorningBookings())
    ensures ValidUpdateAppointment(AppointmentPatch(None, None, None, None, None, Some("scheduled"), None, None, None))
    ensures !UpdateConflicts(TwoMorningBookings(), "a2", AppointmentPatch(None, None, None, None, None, Some("scheduled"), None, None, None))
    ensures !NoDoubleBooking(TwoMorningBookings()["a2" := Patched(TwoMorningBookings()["a2"],
              AppointmentPatch(None, None, None, None, None, Some("scheduled"), None, None, None))])
  {
    var apps := TwoMorningBookings();
    var p := AppointmentPatch(None, None, None, None, None, Some("scheduled"), None, None, None);
    PairWithInactive("a1", MorningBooking(), "a2", MorningBooking().(status := Cancelled));
    PatchedFields(apps["a2"], p);
    MorningClocks();
    LaterClocks();
    var after := apps["a2" := Patched(apps["a2"], p)];
    assert Clash(after["a1"], after["a2"]);
  }

  /** No two distinct appointments clash when one of them is inactive. */
  lemma PairWithInactive(i: Id, a: Appointment, j: Id, b: Appointment)
    requires i != j && !IsActive(b.status)
    ensures NoDoubleBooking(map[i := a, j := b])
  {
  }

  // ---------------------------------------------------------------------------
  // cancelAppointment

  /** The record after a cancellation by `canceller`, for `reason`, at `at`. */
  function CancelledRecord(a: Appointment, canceller: Id, reason: Option<string>, at: int): (b: Appointment)
    ensures !IsActive(b.status)
  {
    a.(status := Cancelled, cancelledBy := Some(canceller), cancellationReason := reason, cancelledAt := Some(at))
  }

  /** `cancelAppointment`: an unknown id, an appointment already cancelled and a completed
      one are refused; any other status becomes cancelled with the audit fields set. */
  method CancelAppointment(db: Db, id: Id, caller: Id, reason: Option<string>, now: int) returns (reply: Reply)
    modifies db`appointments
    ensures id !in old(db.appointments) ==> reply == AppointmentNotFound && db.appointments == old(db.appointments)
    ensures id in old(db.appointments) && old(db.appointments)[id].status == Cancelled ==>
      reply == AlreadyCancelled && db.appointments == old(db.appointments)
    ensures id in old(db.appointments) && old(db.appointments)[id].status == Completed ==>
      reply == CompletedCannotCancel && db.appointments == old(db.appointments)
    ensures id in old(db.appointments) && old(db.appointments)[id].status !in {Cancelled, Completed} ==>
      reply == CancelledOk
      && db.appointments == old(db.appointments)[id := CancelledRecord(old(db.appointments)[id], caller, reason, now)]
  {
    if id !in db.appointments {
      return AppointmentNotFound;
    }
    var a := db.appointments[id];
    if a.status == Cancelled {
      return AlreadyCancelled;
    }
    if a.status == Completed {
      return CompletedCannotCancel;
    }
    db.appointments := db.appointments[id := CancelledRecord(a, caller, reason, now)];
    reply := CancelledOk;
  }

  /** Cancelling keeps the calendar free of double bookings and gives the slot back: the
      conflict query afterwards answers as if the cancelled appointment were excluded. */
  lemma CancelFreesSlot(apps: map<Id, Appointment>, id: Id, canceller: Id, reason: Option<string>, at: int,
                        doctor: Id, date: int, start: string, end: string)
    requires id in apps
    ensures NoDoubleBooking(apps) ==> NoDoubleBooking(apps[id := CancelledRecord(apps[id], canceller, reason, at)])
    ensures CheckConflict(apps[id := CancelledRecord(apps[id], canceller, reason, at)], doctor, date, start, end, None)
        <==> CheckConflict(apps, doctor, date, start, end, Some(id))
  {
    var c := CancelledRecord(apps[id], canceller, reason, at);
    if NoDoubleBooking(apps) {
      InactiveStoreKeepsNoDoubleBooking(apps, id, c);
    }
    DeactivatingFreesSlot(apps, id, c, doctor, date, start, end);
  }

  // ---------------------------------------------------------------------------
  // completeAppointment

  /** The record after completion: the status becomes completed and each of diagnosis,
      prescription and notes is overwritten only when the request gives a non-empty one. */
  function CompletedRecord(a: Appointment, diagnosis: Option<string>, prescription: Option<string>, notes: Option<string>): (b: Appointment)
    ensures b.status == Completed && !IsActive(b.status)
    ensures b.diagnosis == (if Truthy(diagnosis) then diagnosis else a.diagnosis)
    ensures b.prescription == (if Truthy(prescription) then prescription else a.prescription)
    ensures b.notes == (if Truthy(notes) then notes else a.notes)
    ensures b.(status := a.status, diagnosis := a.diagnosis, prescription := a.prescription, notes := a.notes) == a
  {
    a.(status := Completed,
       diagnosis := if Truthy(diagnosis) then diagnosis else a.diagnosis,
       prescription := if Truthy(prescription) then prescription else a.prescription,
       notes := if Truthy(notes) then notes else a.notes)
  }

  /** `save` checks the notes' bound of the schema. */
  predicate NotesSaveable(a: Appointment)
  {
    a.notes.None? || |a.notes.value| <= NotesMax
  }

  /** `completeAppointment`: any status, including cancelled and completed, becomes
      completed; only an unknown id, or notes over the schema's bound, is refused. */
  method CompleteAppointment(db: Db, id: Id, diagnosis: Option<string>, prescription: Option<string>, notes: Option<string>)
    returns (reply: Reply)
    modifies db`appointments
    ensures id !in old(db.appointments) ==> reply == AppointmentNotFound && db.appointments == old(db.appointments)
    ensures id in old(db.appointments) && !NotesSaveable(CompletedRecord(old(db.appointments)[id], diagnosis, prescription, notes)) ==>
      reply == ServerError && db.appointments == old(db.appointments)
    ensures id in old(db.appointments) && NotesSaveable(CompletedRecord(old(db.appointments)[id], diagnosis, prescription, notes)) ==>
      reply == CompletedOk
      && db.appointments == old(db.appointments)[id := CompletedRecord(old(db.appointments)[id], diagnosis, prescription, notes)]
  {
    if id !in db.appointments {
      return AppointmentNotFound;
    }
    var b := CompletedRecord(db.appointments[id], diagnosis, prescription, notes);
    if !NotesSaveable(b) {
      return ServerError;
    }
    db.appointments := db.appointments[id := b];
    reply := CompletedOk;
  }

  /** Completing is allowed from every status and never creates a double booking. */
  lemma CompleteKeepsNoDoubleBooking(apps: map<Id, Appointment>, id: Id, diagnosis: Option<string>, prescription: Option<string>, notes: Option<string>)
    requires NoDoubleBooking(apps) && id in apps
    ensures NoDoubleBooking(apps[id := CompletedRecord(apps[id], diagnosis, prescription, notes)])
  {
    InactiveStoreKeepsNoDoubleBooking(apps, id, CompletedRecord(apps[id], diagnosis, prescription, notes));
  }

  // ---------------------------------------------------------------------------
  // checkAvailability

  datatype Slot = Slot(start: string, end: string)

  function SlotOf(a: Appointment): Slot { Slot(a.startTime, a.endTime) }

  /** The fixed working hours the availability view reports. */
  const WorkingHours: Slot := Slot("08:00", "18:00")

  lemma WorkingHoursValid()
    ensures IsTime(WorkingHours.start) && IsPadded(WorkingHours.start)
    ensures IsTime(WorkingHours.end) && IsPadded(WorkingHours.end)
    ensures TimeMinutes(WorkingHours.end) - TimeMinutes(WorkingHours.start) == 600
  {
    TimeMeaning("08:00");
    TimeMeaning("18:00");
  }

  /** The query of `checkAvailability`: the doctor's active appointments dated from midnight
      up to, not including, 23:59:59.999 of the requested day. */
  predicate BookedOn(a: Appointment, doctor: Id, day: int)
  {
    && a.doctor == doctor
    && StartOfDay(day) <= a.date < StartOfDay(day) + MsPerDay - 1
    && IsActive(a.status)
  }

  function BookedIds(apps: map<Id, Appointment>, doctor: Id, day: int): set<Id>
  {
    set id | id in apps && BookedOn(apps[id], doctor, day)
  }

  const MissingQuery: Reply := Reply(400, "Doctor ID and date are required")
  const AvailabilityOk: Reply := Reply(200, "Available time slots exclude booked appointments")

  /** `slots` lists `table` along `ids`: each key exactly once, each entry the value of its
      key. */
  predicate ListsEachOnce(table: map<Id, Slot>, ids: seq<Id>, slots: seq<Slot>)
  {
    && |slots| == |ids|
    && (forall i, j :: 0 <= i < j < |ids| ==> ids[i] != ids[j])
    && (forall id :: id in table ==> id in ids)
    && (forall i :: 0 <= i < |ids| ==> ids[i] in table && slots[i] == table[ids[i]])
  }

  /** The values of `table`, one entry per key, in the order the keys are taken. */
  method Values(table: map<Id, Slot>) returns (slots: seq<Slot>)
    ensures |slots| == |table.Keys|
    ensures forall id :: id in table ==> table[id] in slots
    ensures forall i :: 0 <= i < |slots| ==> slots[i] in table.Values
    ensures exists ids :: ListsEachOnce(table, ids, slots)
  {
    var remaining := table.Keys;
    ghost var ids: seq<Id> := [];
    slots := [];
    while remaining != {}
      invariant remaining <= table.Keys
      invariant |slots| == |ids| == |table.Keys| - |remaining|
      invariant forall id :: id in table && id !in remaining ==> id in ids
      invariant forall i :: 0 <= i < |ids| ==> ids[i] in table && ids[i] !in remaining && slots[i] == table[ids[i]]
      invariant forall i, j :: 0 <= i < j < |ids| ==> ids[i] != ids[j]
      decreases |remaining|
    {
      var id :| id in remaining;
      slots := slots + [table[id]];
      ids := ids + [id];
      remaining := remaining - {id};
    }
    ListedValues(table, ids, slots);
    assert ListsEachOnce(table, ids, slots);
  }

  /** The keys listed along `ids` whose entry is `v`. */
  function KeysListing(ids: seq<Id>, slots: seq<Slot>, v: Slot): set<Id>
    requires |ids| == |slots|
  {
    set i | 0 <= i < |ids| && slots[i] == v :: ids[i]
  }

  /** Along distinct keys, a value occurs in the list as often as keys list it. */
  lemma {:induction false} CountAlong(ids: seq<Id>, slots: seq<Slot>, v: Slot)
    requires |ids| == |slots|
    requires forall i, j :: 0 <= i < j < |ids| ==> ids[i] != ids[j]
    ensures multiset(slots)[v] == |KeysListing(ids, slots, v)|
  {
    if |ids| == 0 {
      assert KeysListing(ids, slots, v) == {};
    } else {
      var n := |ids| - 1;
      var ids', slots' := ids[..n], slots[..n];
      CountAlong(ids', slots', v);
      assert slots == slots' + [slots[n]];
      assert multiset(slots) == multiset(slots') + multiset{slots[n]};
      var before := KeysListing(ids', slots', v);
      assert ids[n] !in before;
      if slots[n] == v {
        assert KeysListing(ids, slots, v) == before + {ids[n]};
      } else {
        assert KeysListing(ids, slots, v) == before;
      }
    }
  }

  /** A list made of each key's value exactly once holds every value as many times as keys
      carry it: two appointments with the same slot give that slot twice, and a slot no
      appointment has never appears. */
  lemma ListsEachOnceCounts(table: map<Id, Slot>, ids: seq<Id>, slots: seq<Slot>, v: Slot)
    requires ListsEachOnce(table, ids, slots)
    ensures multiset(slots)[v] == |set id | id in table && table[id] == v|
  {
    CountAlong(ids, slots, v);
    var carrying := set id | id in table && table[id] == v;
    forall id | id in carrying
      ensures id in KeysListing(ids, slots, v)
    {
      var i :| 0 <= i < |ids| && ids[i] == id;
      assert slots[i] == v;
    }
    assert KeysListing(ids, slots, v) == carrying;
  }

  /** Slots listed along a sequence of keys that covers the table hold every value of the
      table and nothing else. */
  lemma ListedValues(table: map<Id, Slot>, ids: seq<Id>, slots: seq<Slot>)
    requires |slots| == |ids|
    requires forall id :: id in table ==> id in ids
    requires forall i :: 0 <= i < |ids| ==> ids[i] in table && slots[i] == table[ids[i]]
    ensures forall id :: id in table ==> table[id] in slots
    ensures forall i :: 0 <= i < |slots| ==> slots[i] in table.Values
  {
    forall id | id in table
      ensures table[id] in slots
    {
      var i :| 0 <= i < |ids| && ids[i] == id;
      assert slots[i] == table[id];
    }
    forall i | 0 <= i < |slots|
      ensures slots[i] in table.Values
    {
      assert ids[i] in table && slots[i] == table[ids[i]];
    }
  }

  /** The start and end of each booked appointment. */
  function BookedSlots(apps: map<Id, Appointment>, doctor: Id, day: int): (t: map<Id, Slot>)
    ensures t.Keys == BookedIds(apps, doctor, day)
    ensures forall id :: id in t ==> t[id] == SlotOf(apps[id])
  {
    map id | id in BookedIds(apps, doctor, day) :: SlotOf(apps[id])
  }

  /** `checkAvailability`: both query parameters are required; the booked slots are the
      start and end of each matching appointment, exactly one per appointment. */
  method CheckAvailability(db: Db, doctorId: Option<string>, date: Option<int>)
    returns (reply: Reply, slots: seq<Slot>)
    ensures !(Truthy(doctorId) && date.Some?) ==> reply == MissingQuery && slots == []
    ensures Truthy(doctorId) && date.Some? ==> reply == AvailabilityOk
    ensures Truthy(doctorId) && date.Some? ==>
      var booked := BookedIds(db.appointments, doctorId.value, date.value);
      && |slots| == |booked|
      && (forall id :: id in booked ==> SlotOf(db.appointments[id]) in slots)
      && (forall i :: 0 <= i < |slots| ==> exists id :: id in booked && slots[i] == SlotOf(db.appointments[id]))
    ensures Truthy(doctorId) && date.Some? ==>
      exists ids :: ListsEachOnce(BookedSlots(db.appointments, doctorId.value, date.value), ids, slots)
  {
    if !Truthy(doctorId) || date.None? {
      return MissingQuery, [];
    }
    slots := Values(BookedSlots(db.appointments, doctorId.value, date.value));
    reply := AvailabilityOk;
  }

  // ---------------------------------------------------------------------------
  // a booking day

  /** One doctor's day: 09:00-09:30 is booked. */
  function HalfHourBooking(): Appointment
  {
    MorningBooking().(endTime := "09:30", duration := 30)
  }

  /** An overlapping request, 09:15-09:45, is refused. */
  lemma OverlapRefused()
    ensures CheckConflict(map["a1" := HalfHourBooking()], "d1", 0, "09:15", "09:45", None)
  {
    MorningClocks();
    LaterClocks();
    SingleConflict("a1", HalfHourBooking(), "09:15", "09:45");
  }

  /** The back-to-back request 09:30-10:00 is accepted. */
  lemma BackToBackAccepted()
    ensures !CheckConflict(map["a1" := HalfHourBooking()], "d1", 0, "09:30", "10:00", None)
  {
    MorningClocks();
    LaterClocks();
    SingleConflict("a1", HalfHourBooking(), "09:30", "10:00");
  }

  /** Once the 09:00-09:30 booking is cancelled, 09:15-09:45 is free. */
  lemma CancelledSlotAccepted(canceller: Id, at: int)
    ensures !CheckConflict(map["a1" := CancelledRecord(HalfHourBooking(), canceller, None, at)], "d1", 0, "09:15", "09:45", None)
  {
    SingleConflict("a1", CancelledRecord(HalfHourBooking(), canceller, None, at), "09:15", "09:45");
  }
}
