# CareFlow back end: a Dafny model of its scheduling and clinical workflows

CareFlow is a clinic-management back end: an Express server over MongoDB. Patients,
doctors, nurses, secretaries, pharmacists, laboratory staff and administrators book
appointments, record consultations, issue prescriptions, order lab tests and upload
documents. This project models its controllers, its schemas and its authentication
middleware.

The database is a class `Store.Db` with one map per collection, from ids to records. It also
holds the set of keys of the objects in the storage bucket. Each controller action is a
method on a `Db`:
- its `modifies` clause names only the collections it writes;
- its postcondition gives the reply (HTTP status and message) and the new state of those
  collections, case by case, in the order the controller makes its checks;
- a MongoDB transaction is one method that either commits everything or leaves the
  collections as they were.

Record construction is written as pure functions, and the properties are lemmas about those
functions. Schema validation (Joi request schemas and Mongoose `save` validation) is
written as predicates.

Modules follow the source files:

| module | models |
|---|---|
| `Common`, `Text`, `TimeOfDay`, `ObjectKeys`, `Records`, `Store` | shared vocabulary (replies, roles, JavaScript string operations, `HH:MM` times, storage keys), the records the controllers read, and the database |
| `Validator` | `middlewares/validator.js` |
| `AppointmentModel`, `AppointmentController` | `Models/appointmentModel.js`, `Controllers/appointmentController.js` |
| `PrescriptionModel`, `PrescriptionController` | `Models/prescriptionModel.js`, `Controllers/prescriptionController.js` |
| `LabOrderModel`, `LabOrderController` | `Models/labOrderModel.js`, `Controllers/labOrderController.js` |
| `ConsultationController` | `Controllers/consultationController.js` |
| `DocumentController` | `Controllers/documentController.js` |
| `PatientController` | `Controllers/patientController.js` |
| `UserController` | `Controllers/userController.js` |
| `AuthMiddleware` | `middlewares/authMiddleware.js` |
| `AuthController` | `Controllers/authController.js` |

The environment appears only as parameters:
- the clock is `now` (milliseconds since the epoch);
- new record ids are parameters, each required to be absent from its collection;
- `Math.random()` is a real in [0, 1);
- the bcrypt hash and compare, the HMAC, JWT signing and JWT verification are function-typed
  parameters;
- whether the mail server accepted a message is a boolean input.

## Model

| member | source | states |
|---|---|---|
| Common.ParseRole | CareFlow-BackEnd/Models/userModel.js:23-28 | a string read as a role is that role's stored spelling |
| Common.ParseRoleName | CareFlow-BackEnd/Models/userModel.js:23-28 | every role's spelling reads back as that role |
| Common.ParseGender | CareFlow-BackEnd/middlewares/validator.js:124 | a gender is accepted exactly when it is male, female or other |
| Common.OrElse | CareFlow-BackEnd/Controllers/prescriptionController.js:11 | JavaScript `a \|\| b`: the result is truthy iff either is; it is `a` when `a` is truthy, else `b` |
| Text.TrimIdempotent | CareFlow-BackEnd/Models/patientModel.js:10-19 | trimming a trimmed string changes nothing |
| Text.SixDigitNumber | CareFlow-BackEnd/Controllers/authController.js:136 | a number from 100000 to 999999 is written with six digits |
| TimeOfDay.TimeMeaning | CareFlow-BackEnd/middlewares/validator.js:242-249 | a time the pattern accepts has hour 0-23 and minute 0-59, and the controller's `parseInt` arithmetic gives its minute of the day |
| TimeOfDay.FormatRoundTrip | CareFlow-BackEnd/middlewares/validator.js:242-249 | every hour and minute has a zero-padded spelling that the pattern accepts and that reads back as that hour and minute |
| TimeOfDay.PaddedIsFormat | CareFlow-BackEnd/Models/appointmentModel.js:18-24 | a zero-padded valid time is the padded spelling of its own hour and minute |
| TimeOfDay.PaddedOrderIsClockOrder | CareFlow-BackEnd/Models/appointmentModel.js:96-110 | for zero-padded times, string order is clock order |
| TimeOfDay.UnpaddedOrderDiffers | CareFlow-BackEnd/middlewares/validator.js:242 | the pattern admits "9:00", which sorts after "10:00" as a string although it is earlier |
| Validator.TrimmedName | CareFlow-BackEnd/middlewares/validator.js:114-119 | a first or last name the schema accepts is stored trimmed, with 1 to 50 characters |
| Validator.PhoneShape | CareFlow-BackEnd/middlewares/validator.js:127 | a phone number the pattern accepts has 3 to 24 characters, each a digit, `+`, a bracket, `-`, `.` or white space |
| Validator.PhoneExample | CareFlow-BackEnd/middlewares/validator.js:127 | "06 12-345678" matches the phone pattern |
| Validator.RegisterRole | CareFlow-BackEnd/middlewares/validator.js:25-30 | a registration the schema accepts names one of the seven roles, or none |
| Validator.SixDigitCodesValid | CareFlow-BackEnd/middlewares/validator.js:54-62 | every six-digit number is a verification code the schema accepts |
| Validator.EmptyUserUpdateRefused | CareFlow-BackEnd/middlewares/validator.js:86-107 | an empty user update is refused |
| Validator.EmptyPatientUpdateRefused | CareFlow-BackEnd/middlewares/validator.js:178-229 | an empty patient update is refused |
| Validator.EmptyAppointmentUpdateRefused | CareFlow-BackEnd/middlewares/validator.js:257-267 | an empty appointment update is refused |
| Validator.CreateAppointmentTimes | CareFlow-BackEnd/middlewares/validator.js:231-255 | an accepted booking has two valid clock times and a date no earlier than now |
| Validator.CreateAppointmentAllowsReversedSlot | CareFlow-BackEnd/middlewares/validator.js:242-249 | the schema accepts a booking from 10:00 to 09:00 |
| AppointmentModel.ParseStatusExact | CareFlow-BackEnd/Models/appointmentModel.js:40-44 | a status string is accepted iff it spells one of the six statuses |
| AppointmentModel.ParseTypeExact | CareFlow-BackEnd/Models/appointmentModel.js:35-39 | a type string is accepted iff it spells one of the six types |
| AppointmentModel.ClausesIffOverlap | CareFlow-BackEnd/Models/appointmentModel.js:93-112 | for slots whose start precedes their end, the three `$or` clauses hold iff the half-open intervals overlap; back-to-back slots never match |
| AppointmentModel.ConflictMeaning | CareFlow-BackEnd/Models/appointmentModel.js:88-121 | the check is true iff some stored appointment other than the excluded one has the same doctor, the same date and an active status, and overlaps the requested slot (for the clock-compared check, the corrected half of Findings row 1) |
| AppointmentModel.InactiveNeverConflicts | CareFlow-BackEnd/Models/appointmentModel.js:92 | a completed, cancelled or no-show appointment never causes a conflict: the store answers as it would without that record |
| AppointmentModel.ExcludeSelf | CareFlow-BackEnd/Models/appointmentModel.js:115-117 | with `excludeId`, the answer is the plain answer for the store without that id |
| AppointmentModel.ExclusionWeakens | CareFlow-BackEnd/Models/appointmentModel.js:115-117 | excluding an id can only remove conflicts |
| AppointmentModel.DeactivatingFreesSlot | CareFlow-BackEnd/Models/appointmentModel.js:92 | once a record is made inactive, the plain check answers as the check excluding it did before |
| AppointmentModel.CheckedStoreKeepsNoDoubleBooking | CareFlow-BackEnd/Models/appointmentModel.js:88-121 | storing a record that passed the check, excluding its own id, keeps every doctor free of double bookings (for the clock-compared check, the corrected half of Findings row 1) |
| AppointmentModel.InactiveStoreKeepsNoDoubleBooking | CareFlow-BackEnd/Models/appointmentModel.js:92 | storing an inactive record keeps every doctor free of double bookings |
| AppointmentModel.AsWrittenAgreesWhenPadded | CareFlow-BackEnd/Models/appointmentModel.js:93-112 | when all times are zero-padded, the string-compared query and the clock-compared one agree |
| AppointmentModel.AsWrittenMissesUnpaddedOverlap | CareFlow-BackEnd/Models/appointmentModel.js:93-112 | the string-compared query reports no conflict for 9:00-9:30 against a stored 08:00-10:00 |
| AppointmentModel.ClockSeesUnpaddedOverlap | CareFlow-BackEnd/Models/appointmentModel.js:93-112 | the clock-compared query reports that conflict |
| AppointmentController.StartOfDay | CareFlow-BackEnd/Controllers/appointmentController.js:35-36 | midnight of today lies within the last day before now, on a day boundary |
| AppointmentController.Duration | CareFlow-BackEnd/Controllers/appointmentController.js:54-58 | the stored duration is the end's minute of the day minus the start's, strictly between -1440 and 1440 |
| AppointmentController.DurationNotPositive | CareFlow-BackEnd/Controllers/appointmentController.js:54-58 | nothing makes the duration positive: 10:00-09:00 stores -60 and 09:00-09:00 stores 0 |
| AppointmentController.NewAppointment | CareFlow-BackEnd/Controllers/appointmentController.js:60-71 | a new booking is scheduled (active), its type is the requested one or consultation, it carries the requested doctor, patient, date and times, the computed duration and the caller as creator, and no cancellation, diagnosis or reminder |
| AppointmentController.CreateAppointment | CareFlow-BackEnd/Controllers/appointmentController.js:7-88 | the first failing check decides: schema 400, patient 404, doctor 404, role 400, past date 400, conflict 409 by the clock-compared check, and nothing is stored; once all pass, 201 and exactly the new record is added |
| AppointmentController.PastDateCheckUnreachable | CareFlow-BackEnd/Controllers/appointmentController.js:34-43 | a date the schema accepted is never before today's midnight, so the past-date check never fires |
| AppointmentController.CreateKeepsNoDoubleBooking | CareFlow-BackEnd/Controllers/appointmentController.js:45-73 | a booking that passed the conflict check keeps every doctor free of double bookings (for the clock-compared check, the corrected half of Findings row 1) |
| AppointmentController.GivenTimesWin | CareFlow-BackEnd/Controllers/appointmentController.js:289-292 | the conflict check of an update is run on each given time, or the stored one |
| AppointmentController.PatchedFields | CareFlow-BackEnd/Controllers/appointmentController.js:310-314 | an update moves the record to the date and times the check was run on and keeps its doctor, patient, creator and duration; the status changes only when given |
| AppointmentController.UpdateAppointment | CareFlow-BackEnd/Controllers/appointmentController.js:273-326 | schema 400, unknown id 404, a conflict with another active booking by the clock-compared check 409, each with the collection unchanged; otherwise 200 with exactly that record patched |
| AppointmentController.RescheduleKeepsNoDoubleBooking | CareFlow-BackEnd/Controllers/appointmentController.js:289-314 | a reschedule that passed its conflict check keeps every doctor free of double bookings (for the clock-compared check, the corrected half of Findings row 1) |
| AppointmentController.StatusOnlyUpdateCanDoubleBook | CareFlow-BackEnd/Controllers/appointmentController.js:289 | an update carrying only a status skips the check, so reviving a cancelled booking double-books its slot |
| AppointmentController.CancelledRecord | CareFlow-BackEnd/Controllers/appointmentController.js:352-355 | a cancelled record is inactive |
| AppointmentController.CancelAppointment | CareFlow-BackEnd/Controllers/appointmentController.js:328-368 | unknown id 404, already cancelled 400, completed 400, each with no change; otherwise 200 and the record cancelled by the caller with the reason and time |
| AppointmentController.CancelFreesSlot | CareFlow-BackEnd/Controllers/appointmentController.js:352-357 | cancelling keeps every doctor free of double bookings, and afterwards the plain check answers as if the cancelled booking were excluded |
| AppointmentController.CompletedRecord | CareFlow-BackEnd/Controllers/appointmentController.js:380-383 | completion sets the status and overwrites diagnosis, prescription and notes only when given and truthy; nothing else changes |
| AppointmentController.CompleteAppointment | CareFlow-BackEnd/Controllers/appointmentController.js:370-396 | unknown id 404; from any status, cancelled or completed included, the record becomes completed (500 when its notes exceed the bound) |
| AppointmentController.CompleteKeepsNoDoubleBooking | CareFlow-BackEnd/Controllers/appointmentController.js:380-385 | completing never creates a double booking |
| AppointmentController.WorkingHoursValid | CareFlow-BackEnd/Controllers/appointmentController.js:226-229 | the working hours 08:00 and 18:00 are valid padded times ten hours apart |
| AppointmentController.Values | CareFlow-BackEnd/Controllers/appointmentController.js:231-234 | the loop lists the table along a sequence of distinct keys covering it, each entry the value of its key: exactly one slot per booked appointment |
| AppointmentController.ListsEachOnceCounts | CareFlow-BackEnd/Controllers/appointmentController.js:231-234 | in such a list every slot occurs exactly as often as appointments carry it |
| AppointmentController.BookedSlots | CareFlow-BackEnd/Controllers/appointmentController.js:217-234 | the booked slots are exactly those of the doctor's active appointments on that day |
| AppointmentController.CheckAvailability | CareFlow-BackEnd/Controllers/appointmentController.js:205-247 | 400 without both the doctor and the date; otherwise 200, listing along distinct ids exactly one slot per active appointment of that doctor on that day, and nothing else |
| AppointmentController.OverlapRefused | CareFlow-BackEnd/Models/appointmentModel.js:93-112 | 09:15-09:45 conflicts with a booked 09:00-09:30 |
| AppointmentController.BackToBackAccepted | CareFlow-BackEnd/Models/appointmentModel.js:93-112 | 09:30-10:00 does not conflict with a booked 09:00-09:30 |
| AppointmentController.CancelledSlotAccepted | CareFlow-BackEnd/Models/appointmentModel.js:92 | once 09:00-09:30 is cancelled, 09:15-09:45 is free |
| PrescriptionModel.ParsePrescriptionStatusExact | CareFlow-BackEnd/Models/prescriptionModel.js:74-78 | a status string is accepted iff it spells one of the six statuses |
| PrescriptionModel.StoredLine | CareFlow-BackEnd/Models/prescriptionModel.js:67-72 | a missing refill count becomes 0; a given one and every other field are kept |
| PrescriptionModel.StoredLineValid | CareFlow-BackEnd/Models/prescriptionModel.js:24-73 | a valid medication line stays valid once stored, with 0 to 12 refills |
| PrescriptionModel.ExpiryIsMonotone | CareFlow-BackEnd/Models/prescriptionModel.js:111-113 | an expired prescription stays expired later on, and none is expired at its own validity date |
| PrescriptionController.ItemsOf | CareFlow-BackEnd/Controllers/prescriptionController.js:13 | `items` when given, else `medications`, else the empty list |
| PrescriptionController.StoredLines | CareFlow-BackEnd/Controllers/prescriptionController.js:28 | each stored line is the request's line with the refill default |
| PrescriptionController.Linked | CareFlow-BackEnd/Controllers/prescriptionController.js:36 | pushing the new id onto the consultation's list changes only that consultation, and only that list |
| PrescriptionController.CreatePrescription | CareFlow-BackEnd/Controllers/prescriptionController.js:8-43 | a missing patient or an empty or non-array item list is 400 and an unsaveable record 500, each with no change; otherwise 201, the record stored and its id pushed onto the consultation |
| PrescriptionController.DefaultValidity | CareFlow-BackEnd/Controllers/prescriptionController.js:22 | without a validity date, a new prescription is valid for exactly the thirty days after now |
| PrescriptionController.StoredLinesValid | CareFlow-BackEnd/Controllers/prescriptionController.js:28 | a stored line is valid iff the request's line is, and it always has a refill count |
| PrescriptionController.CreateCanSkipWorkflow | CareFlow-BackEnd/Controllers/prescriptionController.js:31 | a request asking for status dispensed creates a dispensed prescription that was never signed or dispensed by anyone |
| PrescriptionController.SignPrescription | CareFlow-BackEnd/Controllers/prescriptionController.js:99-116 | unknown id 404, a non-draft 400, each with no change; a draft becomes signed by the caller at now; a dispensed prescription is left untouched, and any change is a `Transition` step |
| PrescriptionController.AssignPharmacy | CareFlow-BackEnd/Controllers/prescriptionController.js:118-149 | no pharmacy id 400, unknown prescription 404, dispensed 400, unknown pharmacy 404, each with no change; any other status becomes sent to that pharmacy at now; a dispensed prescription is left untouched, and any change is a `Transition` step |
| PrescriptionController.DispensePrescription | CareFlow-BackEnd/Controllers/prescriptionController.js:151-179 | unknown id 404, status other than signed or sent 400, each with no change; otherwise dispensed by the caller at now; a dispensed prescription is left untouched, and any change is a `Transition` step |
| PrescriptionController.DispensedIsFinal | CareFlow-BackEnd/Controllers/prescriptionController.js:104-158 | the `Transition` relation that the three operations' contracts keep to has no step out of dispensed |
| PrescriptionController.DispenseWithoutSignature | CareFlow-BackEnd/Controllers/prescriptionController.js:128-158 | a draft can be sent and then dispensed without ever being signed |
| PrescriptionController.LifeCycleKeepsSaveable | CareFlow-BackEnd/Controllers/prescriptionController.js:99-179 | signing, sending and dispensing keep every stored prescription valid for `save` |
| PrescriptionController.CreateKeepsStoreValid | CareFlow-BackEnd/Controllers/prescriptionController.js:24-36 | creation keeps every stored prescription valid and every consultation's list pointing at stored prescriptions, the new one included |
| LabOrderModel.DeclaredEnumMisses | CareFlow-BackEnd/Models/labOrderModel.js:49-53 | the declared status enumeration holds every status but received |
| LabOrderModel.ReceivedNeverSaves | CareFlow-BackEnd/Models/labOrderModel.js:49-53 | as declared, no order in status received can be saved; with received added, a well-formed one can |
| LabOrderController.TestsOf | CareFlow-BackEnd/Controllers/labOrderController.js:10 | an absent `tests` defaults to the empty list; a list is kept; anything else is not a list |
| LabOrderController.Actor | CareFlow-BackEnd/Controllers/labOrderController.js:11 | the caller's id is truthy iff the caller is authenticated |
| LabOrderController.NewLabOrder | CareFlow-BackEnd/Controllers/labOrderController.js:21-28 | a new order is ordered, routine, dated now, with no results and no laboratory, and carries the requested tests and patient |
| LabOrderController.LinkedOrder | CareFlow-BackEnd/Controllers/labOrderController.js:31 | pushing the new id onto the consultation's list changes only that consultation, and only that list |
| LabOrderController.CreateLabOrder | CareFlow-BackEnd/Controllers/labOrderController.js:8-38 | missing patient or tests 400, no doctor 400, unsaveable 500, each with no change; otherwise 201, the order stored and its id pushed onto the consultation |
| LabOrderController.OrderingDoctorKnown | CareFlow-BackEnd/Controllers/labOrderController.js:11-19 | the doctor is `body.doctor`, else `orderedBy`, else the caller, so behind authentication the doctor check never fires |
| LabOrderController.NewOrderSaveable | CareFlow-BackEnd/Models/labOrderModel.js:49-53 | a new order is in a declared status, so both schemas judge it alike |
| LabOrderController.ReceivedOrder | CareFlow-BackEnd/Controllers/labOrderController.js:64-65 | after an upload, the order lists the new result last and is in status received; every other field is as before |
| LabOrderController.UploadNeverCommitsAsWritten | CareFlow-BackEnd/Controllers/labOrderController.js:64-66 | as declared, the order after an upload can never be saved; with received added, it can |
| LabOrderController.UploadedResultSaveable | CareFlow-BackEnd/Models/labResultModel.js:4-7 | the inserted result saves iff the order id, the caller and the client's file name are non-empty; it belongs to the order and records the bucket key |
| LabOrderController.UploadResult | CareFlow-BackEnd/Controllers/labOrderController.js:40-78 | no file 400 with nothing touched, unknown order 404; otherwise the file is put in the bucket; a result `save` refuses, or then an order `save` refuses, gives 500 with both collections as they were while the object stays; otherwise one new result is stored and the order updated |
| LabOrderController.UploadKeepsResultsStored | CareFlow-BackEnd/Controllers/labOrderController.js:46-67 | a committed upload keeps every listed result stored, belonging to its order, with its file in the bucket |
| LabOrderController.CreateKeepsResultsStored | CareFlow-BackEnd/Controllers/labOrderController.js:21-30 | a new order lists no results, so creation keeps every listed result stored |
| ObjectKeys.KeyParts | CareFlow-BackEnd/Controllers/labOrderController.js:51 | a key splits on `/` into the folder, the owner id and `<time>_<name>`, and its last segment is `<time>_<name>` |
| ObjectKeys.StampPrefix | CareFlow-BackEnd/Controllers/labOrderController.js:51 | the upload time can be read back from the key's file name |
| ObjectKeys.KeysDistinct | CareFlow-BackEnd/Controllers/labOrderController.js:51 | different owners or different times give different keys |
| ConsultationController.NewConsultation | CareFlow-BackEnd/Controllers/consultationController.js:17-26 | a new consultation is in progress, dated now, with no prescriptions or lab orders, linked to an appointment iff one was given |
| ConsultationController.AttachConsultation | CareFlow-BackEnd/Controllers/consultationController.js:30-32 | only the given appointment changes, and only its consultation link |
| ConsultationController.CreateConsultation | CareFlow-BackEnd/Controllers/consultationController.js:8-43 | missing patient or doctor 400, notes over the bound 500, each with no change; otherwise 201, the consultation stored and the appointment linked |
| ConsultationController.UpdateConsultation | CareFlow-BackEnd/Controllers/consultationController.js:105-118 | unknown id 404 with no change; otherwise 200 with exactly that record patched, the patch free to rewrite the appointment, patient, doctor, date, notes and status |
| ConsultationController.ConsultationStatusRoundTrip | CareFlow-BackEnd/Models/consultationModel.js:84-88 | a status string is stored and read back unchanged; it maps to an unlisted status exactly when it is not one of the three enumerated values |
| ConsultationController.UpdateSkipsSchema | CareFlow-BackEnd/Controllers/consultationController.js:108-109 | with validators off, an update stores a status outside the enumeration and rewrites the patient and doctor references |
| ConsultationController.DeleteConsultation | CareFlow-BackEnd/Controllers/consultationController.js:120-130 | unknown id 404 with no change; otherwise exactly that record is removed |
| ConsultationController.CreateAndDeleteKeepNotesBounded | CareFlow-BackEnd/Models/consultationModel.js:73-76 | creation and deletion keep every stored consultation's notes within the bound |
| ConsultationController.UpdateSkipsNotesBound | CareFlow-BackEnd/Controllers/consultationController.js:109 | an update runs no validators, so it can store notes longer than `save` accepts |
| ConsultationController.PatchTouchesOnlyNamedFields | CareFlow-BackEnd/Controllers/consultationController.js:108-109 | an update sets each of the six modelled fields it names to the given value and leaves every other field as it was; an empty patch changes nothing |
| DocumentController.TrimAll | CareFlow-BackEnd/Controllers/documentController.js:24 | each tag is trimmed, none added or removed |
| DocumentController.NonEmptyOnly | CareFlow-BackEnd/Controllers/documentController.js:24 | `filter(Boolean)` keeps every non-empty tag as often as it occurs and drops every empty one (the multiset of the input without `""`), and keeps a list with no empty tag whole |
| DocumentController.StoredTags | CareFlow-BackEnd/Models/documentModel.js:60-63 | every stored tag is trimmed, one per parsed tag |
| DocumentController.TagsNormalised | CareFlow-BackEnd/Controllers/documentController.js:24 | tags parsed from text are non-empty, trimmed and comma-free, so the schema's trim leaves them alone; an array is only trimmed; absent or empty text gives no tags |
| DocumentController.TagsRoundTrip | CareFlow-BackEnd/Controllers/documentController.js:24 | joining non-empty, trimmed, comma-free tags with commas, then parsing, gives back the tags |
| DocumentController.NewDocumentFields | CareFlow-BackEnd/Controllers/documentController.js:9-25 | the record points at the uploaded key, its file name is the key's last segment `<time>_<name>`, its category defaults to other, and it records the patient, the uploader and the stored tags |
| DocumentController.UploadDocument | CareFlow-BackEnd/Controllers/documentController.js:5-33 | no file 400, no patient 400, nothing touched; otherwise the object is put in the bucket, then either the record is stored (201) or, when `save` refuses it, 500 with the object left behind (with `storageService` imported, the corrected half of Findings row 4) |
| DocumentController.DeleteDocument | CareFlow-BackEnd/Controllers/documentController.js:61-81 | unknown id 404 with no change; otherwise its object leaves the bucket and exactly that record is removed (with `storageService` imported, the corrected half of Findings row 4) |
| DocumentController.UploadDocumentAsWritten | CareFlow-BackEnd/Controllers/documentController.js:5-33 | as written: no file 400, no patient 400, otherwise 500, since the call to the unimported `storageService` throws before anything is stored |
| DocumentController.DeleteDocumentAsWritten | CareFlow-BackEnd/Controllers/documentController.js:61-81 | as written: unknown id 404, otherwise 500, since the transaction aborts at the unimported `storageService` and nothing is removed |
| DocumentController.UploadAsWrittenLosesSaveableUpload | CareFlow-BackEnd/Controllers/documentController.js:12-28 | a PDF upload for a given patient builds a record `save` accepts, so the corrected upload answers 201 where the code as written answers 500 |
| DocumentController.UploadKeepsBlobsBacked | CareFlow-BackEnd/Controllers/documentController.js:12-27 | both outcomes of an upload keep every record's object in the bucket; a fresh key keeps objects unshared |
| DocumentController.DeleteKeepsBlobsBacked | CareFlow-BackEnd/Controllers/documentController.js:65-71 | a deletion keeps every remaining record's object in the bucket |
| DocumentController.UploadKeysDistinct | CareFlow-BackEnd/Controllers/documentController.js:12 | uploads for different patients, or at different times, get different keys |
| PatientController.NewAddress | CareFlow-BackEnd/Models/patientModel.js:33-38 | a new address always has a country: the requested one, else Morocco |
| PatientController.NewPatientFields | CareFlow-BackEnd/Controllers/patientController.js:30-35 | a new record belongs to the requested user, with trimmed names of 1 to 50 characters, a birth date not after now, a valid phone and a country |
| PatientController.PatchedPatientFields | CareFlow-BackEnd/Controllers/patientController.js:158-162 | an update keeps the owner, sets each field it names (names trimmed), and changes nothing when it names none |
| PatientController.CreatePatient | CareFlow-BackEnd/Controllers/patientController.js:7-48 | schema 400, a user id that is not an ObjectId 400, a user who already has a record 409, each with no change; otherwise 201 and exactly the new record is added (over the modelled keys; the four sub-documents are left out) |
| PatientController.UpdatePatient | CareFlow-BackEnd/Controllers/patientController.js:135-173 | schema 400 and unknown id 404 with no change; a patient updating another's record 403 with no change; otherwise 200 with exactly that record patched (over the modelled keys; the four sub-documents are left out) |
| PatientController.DeletePatient | CareFlow-BackEnd/Controllers/patientController.js:175-194 | unknown id 404 with no change; otherwise exactly that record is removed |
| PatientController.CreateKeepsOnePatientPerUser | CareFlow-BackEnd/Controllers/patientController.js:22-35 | a creation past the duplicate check keeps at most one record per user, and a second creation for the same user is then refused |
| PatientController.UpdateAndDeleteKeepOnePatientPerUser | CareFlow-BackEnd/Models/patientModel.js:4-9 | updates and deletions keep at most one record per user |
| UserController.ProfileOf | CareFlow-BackEnd/Controllers/userController.js:31 | the stored profile is the requested one, or empty |
| UserController.RoleOf | CareFlow-BackEnd/Controllers/userController.js:29 | the role is the requested one, or patient |
| UserController.CreateUserAsWrittenNeverSaves | CareFlow-BackEnd/Controllers/userController.js:26-35 | as written, every account the schema admits lacks a name, so `save` refuses it, and a body with a name is refused by the schema |
| UserController.NewUserSaveable | CareFlow-BackEnd/Controllers/userController.js:24-32 | with a name admitted, the new account stores that name trimmed (the `trim` setter of `Models/userModel.js:7`), is verified and active with the hashed password and the requested role, and saves iff its trimmed name and its hash are non-empty |
| UserController.PatchedUserFields | CareFlow-BackEnd/Controllers/userController.js:132-142 | an update stores a given password only as its hash, sets a given role, and keeps the name and verification code |
| UserController.Suspended | CareFlow-BackEnd/Controllers/userController.js:172 | suspension clears `isActive` and nothing else |
| UserController.Reactivated | CareFlow-BackEnd/Controllers/userController.js:194 | reactivation sets `isActive` and nothing else |
| UserController.SuspendAndReactivate | CareFlow-BackEnd/Controllers/userController.js:165-195 | both are idempotent, each undoes the other, and both keep an account saveable |
| UserController.CreateUser | CareFlow-BackEnd/Controllers/userController.js:6-46 | with the corrected schema that admits a name: schema 400, a taken email 409, an unsaveable account 500, each with no change; otherwise 201 and exactly the new account is added |
| UserController.UpdateUser | CareFlow-BackEnd/Controllers/userController.js:109-154 | schema 400, unknown id 404, a role change by a non-admin 403, an email taken by another account 500, each with no change; otherwise 200 with exactly that account patched |
| UserController.SuspendUser | CareFlow-BackEnd/Controllers/userController.js:156-183 | unknown id 404; another admin's account 403; otherwise the account is suspended, each case with the rest unchanged |
| UserController.ReactivateUser | CareFlow-BackEnd/Controllers/userController.js:185-205 | unknown id 404; otherwise the account is reactivated |
| UserController.DeleteUser | CareFlow-BackEnd/Controllers/userController.js:207-233 | unknown id 404; an admin account 403 and it remains; otherwise exactly that account is removed |
| UserController.UserWritesKeepEmailsUnique | CareFlow-BackEnd/Models/userModel.js:9-16 | creation past the duplicate check, an update past the unique index, and deletion keep emails unique |
| UserController.StatusChangesKeepAccounts | CareFlow-BackEnd/Controllers/userController.js:172-194 | suspension and reactivation keep emails unique and the role unchanged |
| UserController.AdminRouteHidesRoleGate | CareFlow-BackEnd/routers/userRouter.js:10 | behind `authorize('admin')` the caller is an admin, so the role-change refusal of `updateUser` never fires |
| AuthMiddleware.CookieRoundTrip | CareFlow-BackEnd/middlewares/authMiddleware.js:22-24 | the cookie `'Bearer' + token` yields that token, whatever the header |
| AuthMiddleware.CookieWins | CareFlow-BackEnd/middlewares/authMiddleware.js:7-13 | a truthy cookie decides alone; the header is not read |
| AuthMiddleware.HeaderRoundTrip | CareFlow-BackEnd/middlewares/authMiddleware.js:9-13 | without a cookie, `Bearer <token>` yields the token |
| AuthMiddleware.HeaderForms | CareFlow-BackEnd/middlewares/authMiddleware.js:9-20 | without a cookie, `Bearer<token>` with no space yields no token, and a header without the prefix is taken whole |
| AuthMiddleware.VerifyToken | CareFlow-BackEnd/middlewares/authMiddleware.js:5-73 | no token 401, expired 401, malformed 401, not yet active 500, unknown user 401, suspended 403; authenticated iff the token decodes to an active account, with the token's id, email and verification flag and the account's name and role |
| AuthMiddleware.Authorize | CareFlow-BackEnd/middlewares/authMiddleware.js:76-94 | passes iff there is a user whose role is allowed; 401 without a user, 403 otherwise |
| AuthMiddleware.RequireVerified | CareFlow-BackEnd/middlewares/authMiddleware.js:97-113 | passes iff there is a verified user; 401 without a user, 403 otherwise |
| AuthMiddleware.AuthorizeMonotone | CareFlow-BackEnd/middlewares/authMiddleware.js:76-94 | an empty role list lets nobody through, and allowing more roles never shuts anyone out |
| AuthController.FindByEmail | CareFlow-BackEnd/Controllers/authController.js:25 | finds an account with the email iff one exists |
| AuthController.EmailOwnerUnique | CareFlow-BackEnd/Models/userModel.js:13 | under the unique index at most one account has a given email |
| AuthController.RegisteredUserFields | CareFlow-BackEnd/Controllers/authController.js:38-45 | a registered account stores the requested name trimmed (the `trim` setter of `Models/userModel.js:7`), so a second trim changes nothing; it is unverified and active, with the hashed password and the requested role or patient, and it saves iff its trimmed name and its hash are non-empty |
| AuthController.Register | CareFlow-BackEnd/Controllers/authController.js:8-58 | a non-object body 400, schema 400, a taken email 401, an unsaveable account 500, each with no change; otherwise 201 and exactly the new account is added |
| AuthController.ClaimsOf | CareFlow-BackEnd/Controllers/authController.js:87-95 | the token carries the account's id, email, verification flag and role |
| AuthController.Login | CareFlow-BackEnd/Controllers/authController.js:60-116 | schema 400; unknown email 401; suspended 403 before the password is compared; wrong password 401; otherwise 200 with the cookie `'Bearer' + token` |
| AuthController.LoginCookieAccepted | CareFlow-BackEnd/Controllers/authController.js:97 | the login cookie is read back by the middleware as the signed token, which decodes to the account's id |
| AuthController.CodeOf | CareFlow-BackEnd/Controllers/authController.js:136 | the code is a number from 100000 to 999999 |
| AuthController.WithCode | CareFlow-BackEnd/Controllers/authController.js:151-154 | sending stores the code's HMAC and the time and nothing else |
| AuthController.MarkedVerified | CareFlow-BackEnd/Controllers/authController.js:201-204 | verification sets the flag and clears both code fields, nothing else |
| AuthController.MatchMeaning | CareFlow-BackEnd/Controllers/authController.js:126-128 | with an email the filter finds an account iff one carries it; without one, iff there is any account |
| AuthController.FindOne | CareFlow-BackEnd/Controllers/authController.js:128 | finds an account matching the filter iff one exists |
| AuthController.SendVerificationCode | CareFlow-BackEnd/Controllers/authController.js:125-165 | no matching account 404 (a body without an email matches any account), already verified 400, mail refused 500, an unsaveable account 500, each with no change; otherwise 200 and exactly the code's HMAC and the sending time are stored |
| AuthController.VerifyEmail | CareFlow-BackEnd/Controllers/authController.js:167-217 | schema 400, unknown 404, already verified 400, no code 400, expired 400, wrong code 400, an unsaveable account 500, each with no change; otherwise 200 and the account is verified with its code cleared |
| AuthController.CodeRoundTrip | CareFlow-BackEnd/Controllers/authController.js:125-217 | the mailed code passes the schema, is accepted within fifteen minutes of sending and refused after, and verifying it marks the account verified |

## Left out

- Express routing, `index.js`, pagination and the read-only listing endpoints are left out. The one exception is the admin gate of `routers/userRouter.js`, which `UserController.AdminRouteHidesRoleGate` uses. `populate` is left out too, because it changes no state.
- The hashing helpers, HMAC, JWT signing and verification, mail sending, `Math.random` and the clock are parameters, not code. The bcrypt cost, the token lifetime and the cookie options are left out.
- Concurrency and transaction isolation are left out. Each transaction is one atomic method.
- Calendar dates are integers (milliseconds). "Midnight of today" is taken in UTC, because the server's time zone is not part of this model.
- Joi's error messages are left out: a refusal by a schema is one reply with code 400. Mongoose validation messages are left out the same way, as one reply with code 500.
- Email format checking, including the allowed top-level domains, is left out. The schema's `lowercase` and `trim` on emails are also left out: emails are compared as given.
- Parsing dates from strings (`Joi.date()`, `new Date(...)`) is left out. Dates arrive as integers.
- The schema default `duration: 30` never applies, since `createAppointment` always sets the duration. `AppointmentController.NewAppointment` states the computed value.
- Consultation vitals, diagnosis, procedures and the BMI pre-save hook are left out. The hook is floating-point arithmetic.
- Mongoose strict mode silently drops fields the schemas do not declare, such as `signedBy`, `sentAt`, `orderedBy`, the consultation's `prescriptions` and `labOrders` lists, and the appointment's `consultation` link. The model follows the controllers' assignments instead.
- Lab orders: the schema declares `results` as embedded summaries, but the upload pushes LabResult ids. The model follows the controller and stores ids.
- DocumentController.UploadDocument: it runs with `storageService` imported, the corrected half of Findings row 4. As written, `documentController.js` never imports it, so every upload with a file and a patient id throws at line 13 and answers 500 with nothing stored (`DocumentController.UploadDocumentAsWritten`). The model puts the object and stores the record.
- DocumentController.DeleteDocument: it runs with `storageService` imported, as in Findings row 4. As written, deleting a known id throws at line 69 inside the transaction and answers 500 with nothing removed (`DocumentController.DeleteDocumentAsWritten`). The model removes the object and the record.
- `getPresignedUrl` also calls the unimported `storageService`; it is a read-only endpoint and is left out with the other listings.
- `PatientController.IsObjectId` accepts 24 hexadecimal digits. Older versions of the driver also accept any 12-character string, and that case is left out.
- Casting an id that is not an ObjectId makes `findById` throw, giving 500. The model treats every unknown id as absent, giving 404.
- `save` casts every reference field to an ObjectId, and a truthy id that is not one, such as `abc`, fails the cast and gives 500. The model's save checks only ask that these ids be present and non-empty, so four creations answer 201 where the source answers 500:
  - ConsultationController.CreateConsultation: a patient, doctor or appointment id that is not an ObjectId is not refused.
  - PrescriptionController.CreatePrescription: a consultation, patient, pharmacy or prescriber id that is not an ObjectId is not refused.
  - LabOrderController.CreateLabOrder: a consultation, patient or doctor id that is not an ObjectId is not refused.
  - DocumentController.UploadDocument: a patient or uploader id that is not an ObjectId is not refused; the same holds for the order and uploader of the result record that `LabOrderController.UploadResult` saves.
- ConsultationController.UpdateConsultation: the update values are cast too, so an unparsable date or reference gives 500 in the source; the model stores whatever id or date the patch carries. Setting `patient`, `doctor`, `notes` or `status` to `null`, and the fields other than the six in `ConsultationPatch` (vitals, diagnosis, the prescription and lab order lists), are left out.
- `AuthController.SendVerificationCode`: which account `findOne({})` returns for a body without an email depends on the collection's natural order, which is not modelled. The model only promises that it is some account. Emails that are not strings are left out too.
- AuthController.SendVerificationCode: a `sendMail` that throws reaches the catch at `authController.js:161-163` and answers 500 "Server error". The model folds it into a mail that was not accepted, which answers 500 "Error sending email". The code and the state agree; only the message differs.
- PatientController.CreatePatient: the schema's `medicalInfo`, `insurance`, `preferences` and `consent` sub-documents are not modelled. `PatientRequest` has no such keys, so their validation (a blood type outside the enumeration gives 400) and their storage through `...patientData` are left out.
- PatientController.UpdatePatient: the same four sub-documents are missing from `PatientPatch`, so `.min(1)` counts only the modelled keys. A body naming only one of them, such as `{"medicalInfo":{"bloodType":"A+"}}`, is valid in the source and answers 200; it has no counterpart in the model, whose all-absent patch is refused with 400 (`Validator.EmptyPatientUpdateRefused`).
- Joi's `min`, `max` and `length` count UTF-16 code units, while `Validator.TrimmedMax`, `Validator.Between` and `Validator.OptionalMax` count characters (Unicode scalar values). A first name of 26 characters outside the Basic Multilingual Plane is 52 units, so the source refuses it against `max(50)` where the model accepts it. UTF-16 lengths are left out.
- `NotBeforeError` from JWT verification gives 500, as the catch-all does. `AuthMiddleware.VerifyToken` states this.
- `req.user.verified` comes from the token, so it stays stale until the next login. The model keeps this behaviour.
- Registration accepts every role, `admin` included, because `registerSchema` allows it. The model keeps this behaviour.
- AppointmentController.CreateAppointment: its 409 comes from the clock-compared check, the corrected half of Findings row 1. The source compares the time strings. Against a stored active 08:00-10:00 booking, it answers 201 to a 9:00-9:30 request where the model answers 409. The two agree whenever every time is zero-padded (`AppointmentModel.AsWrittenAgreesWhenPadded`).
- AppointmentController.UpdateAppointment: its 409 uses the same clock-compared check, with the same difference from the source on unpadded times.
- UserController.CreateUser: it runs on the corrected schema of Findings row 3, which admits a name. As written, the schema refuses any body with a name (400), and a valid body without one fails `save` (500). So the source never creates an account (`UserController.CreateUserAsWrittenNeverSaves`). The model creates one.
- LabOrderController.UploadResult: it saves the order against the status enumeration extended with `received`, the corrected half of Findings row 2. As written, every upload to an existing order that gets past the result's `save` ends in 500 (`LabOrderController.UploadNeverCommitsAsWritten`).
- The front end (`CareFlow-FrontEnd/`) is not part of this model.
- The pharmacy, laboratory and lab-result models and `pharmacyController.js` are not part of this model. A pharmacy is only an id in a set.

## Findings

| source | as written | input that shows it | evidently intended | confidence | as-written member | corrected member |
|---|---|---|---|---|---|---|
| CareFlow-BackEnd/Models/appointmentModel.js:93-112 | the conflict query compares `HH:MM` times as strings, while the schema admits one-digit hours | an active 08:00-10:00 booking and a request for 9:00-9:30 for the same doctor and day: `"9:00" >= "08:00"` holds but `"9:30" <= "10:00"` fails, and no clause matches | compare times of day by minutes since midnight | not executed | AppointmentModel.AsWrittenMissesUnpaddedOverlap | AppointmentModel.ClockSeesUnpaddedOverlap |
| CareFlow-BackEnd/Controllers/labOrderController.js:65 | `uploadResult` sets status `received`, which is not in the enumeration at CareFlow-BackEnd/Models/labOrderModel.js:51 | any upload to an existing order: the order's `save` fails validation, the transaction aborts with 500, and the stored object remains | `received` is a member of the status enumeration, so the upload commits | not executed | LabOrderController.UploadNeverCommitsAsWritten | LabOrderController.UploadResult |
| CareFlow-BackEnd/middlewares/validator.js:65-84 | `createUserSchema` has no `name` key, but the user record requires a name (CareFlow-BackEnd/Models/userModel.js:4-8) | any valid create body: a body with `name` is refused by the schema, and one without it builds an account that `save` refuses, giving 500 | the schema accepts a `name` as `registerSchema` does, and `createUser` stores it | not executed | UserController.CreateUserAsWrittenNeverSaves | UserController.NewUserSaveable |
| CareFlow-BackEnd/Controllers/documentController.js:13 | `uploadDocument` (line 13) and `deleteDocument` (line 69) call `storageService`, which lines 1-2 never import | an upload with a file and a patient id throws a `ReferenceError` and answers 500 with nothing stored; deleting a known id answers 500 with nothing removed | `storageService` is imported from `../services/storageService.js`, as CareFlow-BackEnd/Controllers/labOrderController.js:4 does | not executed | DocumentController.UploadDocumentAsWritten, DocumentController.DeleteDocumentAsWritten, DocumentController.UploadAsWrittenLosesSaveableUpload | DocumentController.UploadDocument, DocumentController.DeleteDocument |
