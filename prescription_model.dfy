/** `prescriptionModel.js`: the prescription record, its status enumeration, the
    constraints on each medication line and `isExpired`. */
module PrescriptionModel {
  import opened Common

  datatype PrescriptionStatus = Draft | Signed | Sent | Dispensed | Cancelled | Expired

  function PrescriptionStatusName(s: PrescriptionStatus): string
  {
    match s
    case Draft => "draft"
    case Signed => "signed"
    case Sent => "sent"
    case Dispensed => "dispensed"
    case Cancelled => "cancelled"
    case Expired => "expired"
  }

  function ParsePrescriptionStatus(s: string): Option<PrescriptionStatus>
  {
    if s == "draft" then Some(Draft)
    else if s == "signed" then Some(Signed)
    else if s == "sent" then Some(Sent)
    else if s == "dispensed" then Some(Dispensed)
    else if s == "cancelled" then Some(Cancelled)
    else if s == "expired" then Some(Expired)
    else None
  }

  /** The enumeration accepts exactly the six spellings. */
  lemma ParsePrescriptionStatusExact(s: string, st: PrescriptionStatus)
    ensures ParsePrescriptionStatus(s) == Some(st) <==> s == PrescriptionStatusName(st)
  {
  }

  const DefaultPrescriptionStatus: PrescriptionStatus := Draft
  const NotesMax: nat := 1000
  const InstructionsMax: nat := 500
  const RefillsMax: int := 12

  /** One medication line as the request supplies it; `None` is an absent field. */
  datatype MedicationLine = MedicationLine(
    name: Option<string>,
    genericName: Option<string>,
    dosage: Option<string>,
    unit: Option<string>,
    route: Option<string>,
    frequency: Option<string>,
    durationValue: Option<int>,
    durationUnit: Option<string>,
    instructions: Option<string>,
    quantity: Option<int>,
    refills: Option<int>)

  predicate IsDoseUnit(s: string) { s in {"mg", "g", "ml", "mcg", "units", "drops", "%"} }

  predicate IsRoute(s: string)
  {
    s in {"oral", "topical", "intravenous", "intramuscular", "subcutaneous", "rectal",
          "inhalation", "ophthalmic", "otic", "nasal"}
  }

  predicate IsDurationUnit(s: string) { s in {"days", "weeks", "months"} }

  /** A required string field: present and not empty. */
  predicate Required(s: Option<string>) { s.Some? && s.value != "" }

  /** What `save` demands of a medication line. */
  predicate ValidLine(l: MedicationLine)
  {
    && Required(l.name)
    && Required(l.dosage)
    && Required(l.unit) && IsDoseUnit(l.unit.value)
    && Required(l.route) && IsRoute(l.route.value)
    && Required(l.frequency)
    && l.durationValue.Some?
    && Required(l.durationUnit) && IsDurationUnit(l.durationUnit.value)
    && (l.instructions.None? || |l.instructions.value| <= InstructionsMax)
    && l.quantity.Some?
    && (l.refills.None? || 0 <= l.refills.value <= RefillsMax)
  }

  /** The line as stored: an absent refill count becomes 0. */
  function StoredLine(l: MedicationLine): (s: MedicationLine)
    ensures s.refills.Some? && (l.refills.Some? ==> s.refills == l.refills)
    ensures l.refills.None? ==> s.refills == Some(0)
    ensures s.(refills := l.refills) == l
  {
    l.(refills := Some(if l.refills.Some? then l.refills.value else 0))
  }

  /** Every stored line of a valid request is valid and has a refill count from 0 to 12. */
  lemma StoredLineValid(l: MedicationLine)
    requires ValidLine(l)
    ensures ValidLine(StoredLine(l))
    ensures 0 <= StoredLine(l).refills.value <= RefillsMax
  {
  }

  /** A prescription. `signedBy` and `sentAt` are written by the controller although the
      schema does not declare them (strict mode would drop them); the model keeps them. */
  datatype Prescription = Prescription(
    consultation: Option<Id>,
    patient: Id,
    prescriber: Id,
    pharmacy: Option<Id>,
    medications: seq<MedicationLine>,
    status: PrescriptionStatus,
    signedAt: Option<int>,
    signedBy: Option<Id>,
    sentAt: Option<int>,
    validUntil: int,
    dispensedAt: Option<int>,
    dispensedBy: Option<Id>,
    notes: string)

  /** What `save` demands of a prescription: a consultation and a patient, valid lines and
      notes of at most 1000 characters. */
  predicate PrescriptionSaveable(p: Prescription)
  {
    && p.consultation.Some? && p.consultation.value != ""
    && p.patient != ""
    && (forall k :: 0 <= k < |p.medications| ==> ValidLine(p.medications[k]))
    && |p.notes| <= NotesMax
  }

  /** `isExpired`: the validity date lies strictly before `now`. */
  predicate IsExpired(p: Prescription, now: int)
  {
    p.validUntil < now
  }

  /** Once expired, a prescription stays expired at every later instant, and it is not
      expired at its own validity date. */
  lemma ExpiryIsMonotone(p: Prescription, now: int, later: int)
    requires now <= later
    ensures IsExpired(p, now) ==> IsExpired(p, later)
    ensures !IsExpired(p, p.validUntil)
  {
  }
}
