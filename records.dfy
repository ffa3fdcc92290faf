/** The stored records the controllers read and write besides appointments, prescriptions
    and lab orders: users (`userModel.js`), patients (`patientModel.js`), consultations
    (`consultationModel.js`), medical documents (`documentModel.js`) and lab results
    (`labResultModel.js`). Only the fields the modelled operations touch are kept. */
module Records {
  import opened Common
  import opened Text

  datatype Profile = Profile(
    firstName: Option<string>, lastName: Option<string>, phone: Option<string>,
    address: Option<string>, dateOfBirth: Option<int>, gender: Option<Gender>)

  const EmptyProfile: Profile := Profile(None, None, None, None, None, None)

  /** A user account. `password` holds the bcrypt hash, `verificationCode` the HMAC of the
      last code mailed and `verificationCodeValidation` the time it was stored. */
  datatype User = User(
    name: Option<string>,
    email: string,
    password: string,
    role: Role,
    verified: bool,
    verificationCode: Option<string>,
    verificationCodeValidation: Option<int>,
    isActive: bool,
    profile: Profile)

  /** What `save` demands of a user: `name`, `email` and `password` are required, and a
      required string may not be empty (the name is trimmed first). */
  predicate UserSaveable(u: User)
  {
    u.name.Some? && Trim(u.name.value) != "" && u.email != "" && u.password != ""
  }

  /** Some user account carries `email`. */
  predicate HasEmail(users: map<Id, User>, email: string)
  {
    exists id :: id in users && users[id].email == email
  }

  datatype Address = Address(
    street: Option<string>, city: Option<string>, zipCode: Option<string>, country: Option<string>)

  /** The `address.country` default of a new patient record. */
  const DefaultCountry: string := "Morocco"

  datatype Contact = Contact(name: Option<string>, relationship: Option<string>, phone: Option<string>)

  /** A patient record; `user` links it to its account. First and last name are stored
      trimmed. */
  datatype Patient = Patient(
    user: Id,
    firstName: string,
    lastName: string,
    dateOfBirth: int,
    gender: Gender,
    phone: string,
    address: Address,
    emergencyContact: Option<Contact>)

  /** At most one patient record per user account: the `unique` index on `user`, and the
      duplicate check of the controller. */
  predicate OnePatientPerUser(patients: map<Id, Patient>)
  {
    forall p, q :: p in patients && q in patients && p != q ==> patients[p].user != patients[q].user
  }

  /** A consultation's status: one of the enumeration of `consultationModel.js`, or a string
      outside it, which only an update that skips validation can store. */
  datatype ConsultationStatus = ConsultationInProgress | ConsultationCompleted | ConsultationCancelled
                              | UnlistedStatus(name: string)

  /** A consultation. `prescriptions` and `labOrders` are the lists the prescription and
      lab-order controllers push onto; the schema does not declare them, so Mongoose's strict
      mode would drop those pushes, but the model follows the controllers. */
  datatype Consultation = Consultation(
    appointment: Option<Id>,
    patient: Id,
    doctor: Id,
    consultationDate: int,
    notes: Option<string>,
    status: ConsultationStatus,
    prescriptions: seq<Id>,
    labOrders: seq<Id>)

  /** A medical document whose file lives in object storage under `fileUrl`. */
  datatype Document = Document(
    patient: Id,
    uploadedBy: Id,
    originalFileName: string,
    fileName: string,
    fileUrl: string,
    fileSize: int,
    mimeType: string,
    category: string,
    tags: seq<string>)

  predicate IsDocumentCategory(s: string)
  {
    s in {"imaging", "lab-report", "prescription", "medical-certificate", "vaccination-record",
          "discharge-summary", "referral", "consent-form", "insurance", "other"}
  }

  predicate IsDocumentMimeType(s: string)
  {
    s in {"application/pdf", "image/jpeg", "image/png", "image/jpg"}
  }

  /** What `save` demands of a document: the required strings are non-empty and the
      category and MIME type belong to their enumerations. */
  predicate DocumentSaveable(d: Document)
  {
    && d.patient != "" && d.uploadedBy != "" && d.fileName != "" && d.originalFileName != ""
    && d.fileUrl != "" && IsDocumentMimeType(d.mimeType) && IsDocumentCategory(d.category)
  }

  /** One uploaded lab result file. */
  datatype LabResult = LabResult(
    order: Id, uploadedBy: Id, filename: string, storageKey: string, contentType: string)

  /** What `save` demands of a lab result: the order, the uploader, the file name and the
      storage key are required, and a required string may not be empty. */
  predicate LabResultSaveable(r: LabResult)
  {
    r.order != "" && r.uploadedBy != "" && r.filename != "" && r.storageKey != ""
  }
}
