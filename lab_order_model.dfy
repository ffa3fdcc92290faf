/** `labOrderModel.js`: the lab order record, its status and priority enumerations and the
    constraints on each requested test. */
module LabOrderModel {
  import opened Common

  /** The six statuses of the schema, and `Received`, the status the result upload writes,
      which the schema's enumeration does not contain. */
  datatype LabOrderStatus = Ordered | SampleCollected | InProgress | Completed | Cancelled | Validated | Received

  function LabOrderStatusName(s: LabOrderStatus): string
  {
    match s
    case Ordered => "ordered"
    case SampleCollected => "sample-collected"
    case InProgress => "in-progress"
    case Completed => "completed"
    case Cancelled => "cancelled"
    case Validated => "validated"
    case Received => "received"
  }

  /** The status enumeration as declared. */
  predicate InDeclaredEnum(s: LabOrderStatus)
  {
    LabOrderStatusName(s) in {"ordered", "sample-collected", "in-progress", "completed", "cancelled", "validated"}
  }

  /** Every status but `Received` is declared. */
  lemma DeclaredEnumMisses(s: LabOrderStatus)
    ensures InDeclaredEnum(s) <==> s != Received
  {
  }

  const DefaultLabOrderStatus: LabOrderStatus := Ordered

  datatype Priority = Routine | Urgent | Stat

  const DefaultPriority: Priority := Routine

  /** One requested test as the request supplies it. */
  datatype LabTest = LabTest(
    code: Option<string>, name: Option<string>, category: Option<string>,
    specimenType: Option<string>, instructions: Option<string>)

  predicate IsTestCategory(s: string)
  {
    s in {"hematology", "biochemistry", "microbiology", "immunology", "pathology", "genetics", "toxicology", "other"}
  }

  predicate IsSpecimenType(s: string)
  {
    s in {"blood", "urine", "stool", "saliva", "tissue", "swab", "other"}
  }

  /** What `save` demands of a test: a name; category and specimen type, when given, from
      their enumerations. */
  predicate ValidTest(t: LabTest)
  {
    && t.name.Some? && t.name.value != ""
    && (t.category.None? || IsTestCategory(t.category.value))
    && (t.specimenType.None? || IsSpecimenType(t.specimenType.value))
  }

  /** A lab order. `results` holds the ids of the uploaded LabResult records, as the upload
      pushes them; the schema declares embedded result summaries there instead. */
  datatype LabOrder = LabOrder(
    consultation: Option<Id>,
    patient: Id,
    doctor: Id,
    orderedBy: Option<Id>,
    laboratory: Option<Id>,
    tests: seq<LabTest>,
    priority: Priority,
    status: LabOrderStatus,
    orderedAt: int,
    results: seq<Id>)

  /** What `save` demands of a lab order besides its status: consultation, patient and
      doctor are required and every test is valid. */
  predicate FieldsSaveable(o: LabOrder)
  {
    && o.consultation.Some? && o.consultation.value != ""
    && o.patient != "" && o.doctor != ""
    && (forall k :: 0 <= k < |o.tests| ==> ValidTest(o.tests[k]))
  }

  /** `save` as the schema is written: the status must be one of the six declared. */
  predicate SaveableAsWritten(o: LabOrder)
  {
    FieldsSaveable(o) && InDeclaredEnum(o.status)
  }

  /** `save` once the enumeration includes `received`. */
  predicate Saveable(o: LabOrder)
  {
    FieldsSaveable(o)
  }

  /** The declared schema refuses every order in status `Received`, however well-formed. */
  lemma ReceivedNeverSaves(o: LabOrder)
    requires o.status == Received
    ensures !SaveableAsWritten(o)
    ensures FieldsSaveable(o) ==> Saveable(o)
  {
  }
}
