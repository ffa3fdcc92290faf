/** `appointmentModel.js`: the appointment record, its enumerations and defaults, and the
    `checkConflict` query that decides whether a doctor is already booked. */
module AppointmentModel {
  import opened Common
  import opened Text
  import opened TimeOfDay

  datatype AppointmentStatus = Scheduled | Confirmed | InProgress | Completed | Cancelled | NoShow
  datatype AppointmentType = Consultation | FollowUp | Emergency | Checkup | Vaccination | Other

  function StatusName(s: AppointmentStatus): string
  {
    match s
    case Scheduled => "scheduled"
    case Confirmed => "confirmed"
    case InProgress => "in-progress"
    case Completed => "completed"
    case Cancelled => "cancelled"
    case NoShow => "no-show"
  }

  function ParseStatus(s: string): Option<AppointmentStatus>
  {
    if s == "scheduled" then Some(Scheduled)
    else if s == "confirmed" then Some(Confirmed)
    else if s == "in-progress" then Some(InProgress)
    else if s == "completed" then Some(Completed)
    else if s == "cancelled" then Some(Cancelled)
    else if s == "no-show" then Some(NoShow)
    else None
  }

  /** A string is accepted as a status exactly when it is the spelling of one. */
  lemma ParseStatusExact(s: string, st: AppointmentStatus)
    ensures ParseStatus(s) == Some(st) <==> s == StatusName(st)
  {
  }

  function TypeName(t: AppointmentType): string
  {
    match t
    case Consultation => "consultation"
    case FollowUp => "follow-up"
    case Emergency => "emergency"
    case Checkup => "checkup"
    case Vaccination => "vaccination"
    case Other => "other"
  }

  function ParseType(s: string): Option<AppointmentType>
  {
    if s == "consultation" then Some(Consultation)
    else if s == "follow-up" then Some(FollowUp)
    else if s == "emergency" then Some(Emergency)
    else if s == "checkup" then Some(Checkup)
    else if s == "vaccination" then Some(Vaccination)
    else if s == "other" then Some(Other)
    else None
  }

  lemma ParseTypeExact(s: string, t: AppointmentType)
    ensures ParseType(s) == Some(t) <==> s == TypeName(t)
  {
  }

  /** Schema defaults. */
  const DefaultStatus: AppointmentStatus := Scheduled
  const DefaultType: AppointmentType := Consultation
  const DefaultDuration: int := 30
  const ReasonMax: nat := 500
  const NotesMax: nat := 1000

  /** The statuses the conflict query looks at: a booking in any other status never blocks. */
  predicate IsActive(s: AppointmentStatus)
  {
    s == Scheduled || s == Confirmed || s == InProgress
  }

  /** One stored appointment. `consultation` is the back-link written by the consultation
      controller; the schema does not declare it, so Mongoose's strict mode would drop it,
      but the model follows the controller's assignment. */
  datatype Appointment = Appointment(
    patient: Id,
    doctor: Id,
    date: int,
    startTime: string,
    endTime: string,
    duration: int,
    reason: string,
    kind: AppointmentType,
    status: AppointmentStatus,
    notes: Option<string>,
    prescription: Option<string>,
    diagnosis: Option<string>,
    cancelledBy: Option<Id>,
    cancellationReason: Option<string>,
    cancelledAt: Option<int>,
    reminderSent: bool,
    createdBy: Id,
    consultation: Option<Id>)

  // ---------------------------------------------------------------------------
  // the three clauses of the conflict query

  /** The `$or` of the query for an existing slot [es, ee) and a requested one [ns, ne),
      over minutes since midnight. */
  predicate Clauses(es: int, ee: int, ns: int, ne: int)
  {
    || (es <= ns && ee > ns)
    || (es < ne && ee >= ne)
    || (es >= ns && ee <= ne)
  }

  /** Half-open intervals [es, ee) and [ns, ne) share a minute. */
  predicate Overlap(es: int, ee: int, ns: int, ne: int)
  {
    es < ne && ns < ee
  }

  /** An overlap always satisfies one of the three clauses, whatever the intervals. */
  lemma OverlapImpliesClauses(es: int, ee: int, ns: int, ne: int)
    requires Overlap(es, ee, ns, ne)
    ensures Clauses(es, ee, ns, ne)
  {
  }

  /** For proper intervals (start before end) the three clauses are exactly the half-open
      overlap; in particular back-to-back slots never match. */
  lemma ClausesIffOverlap(es: int, ee: int, ns: int, ne: int)
    requires es < ee && ns < ne
    ensures Clauses(es, ee, ns, ne) <==> Overlap(es, ee, ns, ne)
    ensures ee == ns || ne == es ==> !Clauses(es, ee, ns, ne)
  {
  }

  /** The same three clauses with `$lte`, `$gt`, `$lt`, `$gte` on the stored strings, as the
      query is written. */
  predicate ClausesOnText(es: string, ee: string, ns: string, ne: string)
  {
    || (LexLessEq(es, ns) && LexLess(ns, ee))
    || (LexLess(es, ne) && LexLessEq(ne, ee))
    || (LexLessEq(ns, es) && LexLessEq(ee, ne))
  }

  /** Minutes since midnight of a stored time. Every time that reaches the store has passed
      the validator's pattern; the value -1 for any other string is never used. */
  function ClockOf(t: string): int
  {
    if IsTime(t) then TimeMinutes(t) else -1
  }

  /** A valid time reads on the clock as its hour and minute. */
  lemma ClockAt(t: string, h: nat, m: nat)
    requires IsTime(t) && Hour(t) == h && Minute(t) == m
    ensures ClockOf(t) == h * 60 + m
  {
    TimeMeaning(t);
  }

  // ---------------------------------------------------------------------------
  // checkConflict

  /** The conflict query as written: same doctor, exactly the same date value, an active
      status, the three clauses compared as strings, and not the excluded id. */
  predicate MatchesAsWritten(id: Id, a: Appointment, doctor: Id, date: int, start: string, end: string, excludeId: Option<Id>)
  {
    && a.doctor == doctor
    && a.date == date
    && IsActive(a.status)
    && ClausesOnText(a.startTime, a.endTime, start, end)
    && (excludeId.None? || id != excludeId.value)
  }

  predicate CheckConflictAsWritten(apps: map<Id, Appointment>, doctor: Id, date: int, start: string, end: string, excludeId: Option<Id>)
  {
    exists id :: id in apps && MatchesAsWritten(id, apps[id], doctor, date, start, end, excludeId)
  }

  /** The conflict query with the clauses compared on the clock, as the record's "09:00"
      format intends. The rest of the model uses this one. */
  predicate Matches(id: Id, a: Appointment, doctor: Id, date: int, start: string, end: string, excludeId: Option<Id>)
  {
    && a.doctor == doctor
    && a.date == date
    && IsActive(a.status)
    && Clauses(ClockOf(a.startTime), ClockOf(a.endTime), ClockOf(start), ClockOf(end))
    && (excludeId.None? || id != excludeId.value)
  }

  /** `checkConflict`: true iff some stored appointment satisfies the query. */
  predicate CheckConflict(apps: map<Id, Appointment>, doctor: Id, date: int, start: string, end: string, excludeId: Option<Id>)
  {
    exists id :: id in apps && Matches(id, apps[id], doctor, date, start, end, excludeId)
  }

  predicate Proper(a: Appointment)
  {
    IsTime(a.startTime) && IsTime(a.endTime) && TimeMinutes(a.startTime) < TimeMinutes(a.endTime)
  }

  /** For proper intervals, a conflict is exactly another active appointment of the same
      doctor on the same date whose half-open slot overlaps the requested one, the excluded
      id aside. */
  lemma ConflictMeaning(apps: map<Id, Appointment>, doctor: Id, date: int, start: string, end: string, excludeId: Option<Id>)
    requires forall id :: id in apps ==> Proper(apps[id])
    requires IsTime(start) && IsTime(end) && TimeMinutes(start) < TimeMinutes(end)
    ensures CheckConflict(apps, doctor, date, start, end, excludeId) <==>
      exists id :: id in apps && apps[id].doctor == doctor && apps[id].date == date
        && IsActive(apps[id].status) && (excludeId.None? || id != excludeId.value)
        && Overlap(ClockOf(apps[id].startTime), ClockOf(apps[id].endTime), ClockOf(start), ClockOf(end))
  {
    if CheckConflict(apps, doctor, date, start, end, excludeId) {
      var id :| id in apps && Matches(id, apps[id], doctor, date, start, end, excludeId);
      assert Proper(apps[id]);
      ClausesIffOverlap(ClockOf(apps[id].startTime), ClockOf(apps[id].endTime), ClockOf(start), ClockOf(end));
    }
  }

  /** Completed, cancelled and no-show appointments never cause a conflict: a store that
      differs only in such records gives the same answer as the store without them. */
  lemma InactiveNeverConflicts(apps: map<Id, Appointment>, id: Id, a: Appointment, doctor: Id, date: int, start: string, end: string, excludeId: Option<Id>)
    requires !IsActive(a.status)
    ensures CheckConflict(apps[id := a], doctor, date, start, end, excludeId)
        <==> CheckConflict(apps - {id}, doctor, date, start, end, excludeId)
  {
    var m := apps[id := a];
    if CheckConflict(m, doctor, date, start, end, excludeId) {
      var k :| k in m && Matches(k, m[k], doctor, date, start, end, excludeId);
      assert k != id;
      assert k in apps - {id} && (apps - {id})[k] == m[k];
    }
    if CheckConflict(apps - {id}, doctor, date, start, end, excludeId) {
      var k :| k in apps - {id} && Matches(k, (apps - {id})[k], doctor, date, start, end, excludeId);
      assert k in m && m[k] == (apps - {id})[k];
    }
  }

  /** With `excludeId`, the appointment carrying that id is never counted: the answer is the
      one for the store without it. */
  lemma ExcludeSelf(apps: map<Id, Appointment>, id: Id, doctor: Id, date: int, start: string, end: string)
    ensures CheckConflict(apps, doctor, date, start, end, Some(id))
        <==> CheckConflict(apps - {id}, doctor, date, start, end, None)
  {
    if CheckConflict(apps, doctor, date, start, end, Some(id)) {
      var k :| k in apps && Matches(k, apps[k], doctor, date, start, end, Some(id));
      assert k in apps - {id} && Matches(k, (apps - {id})[k], doctor, date, start, end, None);
    }
    if CheckConflict(apps - {id}, doctor, date, start, end, None) {
      var k :| k in apps - {id} && Matches(k, (apps - {id})[k], doctor, date, start, end, None);
      assert Matches(k, apps[k], doctor, date, start, end, Some(id));
    }
  }

  /** Excluding an id can only remove conflicts, never add one. */
  lemma ExclusionWeakens(apps: map<Id, Appointment>, id: Id, doctor: Id, date: int, start: string, end: string)
    ensures CheckConflict(apps, doctor, date, start, end, Some(id)) ==> CheckConflict(apps, doctor, date, start, end, None)
  {
    if CheckConflict(apps, doctor, date, start, end, Some(id)) {
      var k :| k in apps && Matches(k, apps[k], doctor, date, start, end, Some(id));
      assert Matches(k, apps[k], doctor, date, start, end, None);
    }
  }

  /** Cancelling (or completing) an appointment frees its slot: afterwards the plain check
      answers as the check that excludes that appointment did before. */
  lemma DeactivatingFreesSlot(apps: map<Id, Appointment>, id: Id, a: Appointment, doctor: Id, date: int, start: string, end: string)
    requires !IsActive(a.status)
    ensures CheckConflict(apps[id := a], doctor, date, start, end, None)
        <==> CheckConflict(apps, doctor, date, start, end, Some(id))
  {
    InactiveNeverConflicts(apps, id, a, doctor, date, start, end, None);
    ExcludeSelf(apps, id, doctor, date, start, end);
  }

  // ---------------------------------------------------------------------------
  // the calendar invariant

  /** Two appointments are double-booked when they belong to the same doctor, carry the same
      date, are both active and their slots overlap on the clock. */
  predicate Clash(a: Appointment, b: Appointment)
  {
    && a.doctor == b.doctor
    && a.date == b.date
    && IsActive(a.status) && IsActive(b.status)
    && Overlap(ClockOf(a.startTime), ClockOf(a.endTime), ClockOf(b.startTime), ClockOf(b.endTime))
  }

  /** No doctor is double-booked. */
  predicate NoDoubleBooking(apps: map<Id, Appointment>)
  {
    forall i, j :: i in apps && j in apps && i != j ==> !Clash(apps[i], apps[j])
  }

  /** Storing `a` under `id` keeps the calendar free of double bookings whenever the conflict
      check for `a`'s doctor, date and times, excluding `id` itself, found nothing. This
      covers both a new booking and a reschedule. */
  lemma CheckedStoreKeepsNoDoubleBooking(apps: map<Id, Appointment>, id: Id, a: Appointment)
    requires NoDoubleBooking(apps)
    requires !CheckConflict(apps, a.doctor, a.date, a.startTime, a.endTime, Some(id))
    ensures NoDoubleBooking(apps[id := a])
  {
    var m := apps[id := a];
    forall i, j | i in m && j in m && i != j
      ensures !Clash(m[i], m[j])
    {
      if i == id || j == id {
        var k := if i == id then j else i;
        assert m[k] == apps[k];
        assert !Matches(k, apps[k], a.doctor, a.date, a.startTime, a.endTime, Some(id));
      } else {
        assert m[i] == apps[i] && m[j] == apps[j];
      }
    }
  }

  /** Storing an inactive record never creates a double booking. */
  lemma InactiveStoreKeepsNoDoubleBooking(apps: map<Id, Appointment>, id: Id, a: Appointment)
    requires NoDoubleBooking(apps)
    requires !IsActive(a.status)
    ensures NoDoubleBooking(apps[id := a])
  {
    var m := apps[id := a];
    forall i, j | i in m && j in m && i != j
      ensures !Clash(m[i], m[j])
    {
      if i != id && j != id {
        assert m[i] == apps[i] && m[j] == apps[j];
      }
    }
  }

  // ---------------------------------------------------------------------------
  // the query as written against the clock version

  /** When every time involved is zero-padded, the query as written and the clock version
      agree. */
  lemma AsWrittenAgreesWhenPadded(apps: map<Id, Appointment>, doctor: Id, date: int, start: string, end: string, excludeId: Option<Id>)
    requires forall id :: id in apps ==>
      (IsTime(apps[id].startTime) && IsPadded(apps[id].startTime) && IsTime(apps[id].endTime) && IsPadded(apps[id].endTime))
    requires IsTime(start) && IsPadded(start) && IsTime(end) && IsPadded(end)
    ensures CheckConflictAsWritten(apps, doctor, date, start, end, excludeId)
        <==> CheckConflict(apps, doctor, date, start, end, excludeId)
  {
    forall id | id in apps
      ensures MatchesAsWritten(id, apps[id], doctor, date, start, end, excludeId)
          <==> Matches(id, apps[id], doctor, date, start, end, excludeId)
    {
      var a := apps[id];
      TextClausesAreClockClauses(a.startTime, a.endTime, start, end);
    }
  }

  lemma TextClausesAreClockClauses(es: string, ee: string, ns: string, ne: string)
    requires IsTime(es) && IsPadded(es) && IsTime(ee) && IsPadded(ee)
    requires IsTime(ns) && IsPadded(ns) && IsTime(ne) && IsPadded(ne)
    ensures ClausesOnText(es, ee, ns, ne)
        <==> Clauses(TimeMinutes(es), TimeMinutes(ee), TimeMinutes(ns), TimeMinutes(ne))
  {
    PaddedEquality(es, ns);
    PaddedEquality(ee, ne);
    PaddedEquality(ns, es);
    PaddedEquality(ne, ee);
    PaddedOrderIsClockOrder(es, ns);
    PaddedOrderIsClockOrder(ns, ee);
    PaddedOrderIsClockOrder(es, ne);
    PaddedOrderIsClockOrder(ne, ee);
    PaddedOrderIsClockOrder(ns, es);
    PaddedOrderIsClockOrder(ee, ne);
  }

  /** Two padded times are equal strings exactly when they name the same minute. */
  lemma PaddedEquality(a: string, b: string)
    requires IsTime(a) && IsPadded(a) && IsTime(b) && IsPadded(b)
    ensures a == b <==> TimeMinutes(a) == TimeMinutes(b)
  {
    PaddedOrderIsClockOrder(a, b);
    PaddedOrderIsClockOrder(b, a);
    if a != b {
      LexTotal(a, b);
    }
  }

  /** Two different strings are ordered one way or the other. */
  lemma {:induction false} LexTotal(a: string, b: string)
    requires a != b
    ensures LexLess(a, b) || LexLess(b, a)
  {
    if |a| > 0 && |b| > 0 && a[0] == b[0] {
      assert a == [a[0]] + a[1..] && b == [b[0]] + b[1..];
      LexTotal(a[1..], b[1..]);
    }
  }

  /** With a single stored appointment, the query is decided by that appointment alone. */
  lemma SingleConflict(id: Id, a: Appointment, start: string, end: string)
    ensures CheckConflict(map[id := a], a.doctor, a.date, start, end, None)
        <==> IsActive(a.status) && Clauses(ClockOf(a.startTime), ClockOf(a.endTime), ClockOf(start), ClockOf(end))
  {
    assert id in map[id := a];
    if CheckConflict(map[id := a], a.doctor, a.date, start, end, None) {
      var k :| k in map[id := a] && Matches(k, map[id := a][k], a.doctor, a.date, start, end, None);
      assert k == id;
    }
  }

  lemma EarlyClocks()
    ensures ClockOf("08:00") == 480 && ClockOf("10:00") == 600
    ensures ClockOf("9:00") == 540 && ClockOf("9:30") == 570
  {
    ClockAt("08:00", 8, 0);
    ClockAt("10:00", 10, 0);
    ClockAt("9:00", 9, 0);
    ClockAt("9:30", 9, 30);
  }

  function EarlyBooking(): Appointment
  {
    Appointment("p1", "d1", 0, "08:00", "10:00", 120, "checkup", Consultation, Scheduled,
                None, None, None, None, None, None, false, "u1", None)
  }

  /** The query as written lets an overlapping request through: 9:00-9:30 lies inside
      08:00-10:00, yet no clause matches because "9:00" sorts after "10:00" as a string. */
  lemma AsWrittenMissesUnpaddedOverlap()
    ensures IsTime("9:00") && IsTime("9:30")
    ensures !CheckConflictAsWritten(map["a1" := EarlyBooking()], "d1", 0, "9:00", "9:30", None)
  {
    LexFirst("08:00", "9:00");
    LexFirst("08:00", "9:30");
    LexFirst("10:00", "9:00");
    LexFirst("10:00", "9:30");
    LexFirst("9:00", "10:00");
    LexFirst("9:30", "10:00");
    LexFirst("9:00", "08:00");
    assert !MatchesAsWritten("a1", EarlyBooking(), "d1", 0, "9:00", "9:30", None);
  }

  /** The clock version reports the conflict the query as written misses. */
  lemma ClockSeesUnpaddedOverlap()
    ensures CheckConflict(map["a1" := EarlyBooking()], "d1", 0, "9:00", "9:30", None)
  {
    EarlyClocks();
    SingleConflict("a1", EarlyBooking(), "9:00", "9:30");
  }
}
