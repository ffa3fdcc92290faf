/** The MongoDB database and the object-storage bucket the controllers work on: one map from
    id to record per collection, the set of pharmacy ids, and the set of keys present in the
    bucket. Each controller method takes the store and changes only the collections its
    `modifies` clause names. */
module Store {
  import opened Common
  import AppointmentModel
  import PrescriptionModel
  import LabOrderModel
  import Records

  class Db {
    var users: map<Id, Records.User>
    var patients: map<Id, Records.Patient>
    var appointments: map<Id, AppointmentModel.Appointment>
    var consultations: map<Id, Records.Consultation>
    var prescriptions: map<Id, PrescriptionModel.Prescription>
    var labOrders: map<Id, LabOrderModel.LabOrder>
    var labResults: map<Id, Records.LabResult>
    var documents: map<Id, Records.Document>
    var pharmacies: set<Id>
    /** Keys of the objects currently in the bucket. */
    var blobs: set<string>

    /** An empty database and an empty bucket. */
    constructor ()
      ensures users == map[] && patients == map[] && appointments == map[]
      ensures consultations == map[] && prescriptions == map[] && labOrders == map[]
      ensures labResults == map[] && documents == map[] && pharmacies == {} && blobs == {}
    {
      users := map[];
      patients := map[];
      appointments := map[];
      consultations := map[];
      prescriptions := map[];
      labOrders := map[];
      labResults := map[];
      documents := map[];
      pharmacies := {};
      blobs := {};
    }
  }
}
