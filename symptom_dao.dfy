/** server/database/SymptomDAO.java: `insertSymptom`, which stamps the row
    with the current time (a parameter here). The router also calls
    `getSymptomsByPatientId`, which that file does not contain; it is
    modelled as the plain lookup its name describes, in table order. */
module SymptomDAO {
  import opened Common
  import opened Schema

  /** `insertSymptom`: true when the row went in; false when the statement
      raised because the connection is down or the patient does not exist. */
  method InsertSymptom(db: Database, patientId: int, description: string, now: string)
    returns (ok: bool)
    requires db.Valid()
    modifies db`symptoms
    ensures db.Valid()
    ensures ok <==> old(db.online) && db.PatientExists(patientId)
    ensures ok ==> db.symptoms == old(db.symptoms)
                    + [SymptomRow(|old(db.symptoms)| + 1, patientId, description, now)]
    ensures !ok ==> db.symptoms == old(db.symptoms)
  {
    db.PatientExistsIffInRange(patientId);
    if !db.online || !db.PatientExists(patientId) {
      return false;
    }
    db.symptoms := db.symptoms + [SymptomRow(|db.symptoms| + 1, patientId, description, now)];
    ok := true;
  }

  /** The rows that belong to one patient. */
  function OfPatient(patientId: int): SymptomRow -> bool {
    (s: SymptomRow) => s.patientId == patientId
  }

  /** `WHERE patient_id = ?`, in table order. */
  function SymptomsOf(db: Database, patientId: int): seq<SymptomRow>
    reads db
  {
    Filter(db.symptoms, OfPatient(patientId))
  }

  /** `getSymptomsByPatientId`: this patient's symptoms, in table order;
      empty on error. */
  method GetSymptomsByPatientId(db: Database, patientId: int) returns (r: seq<SymptomRow>)
    ensures !db.online ==> r == []
    ensures db.online ==> r == SymptomsOf(db, patientId)
  {
    r := [];
    if !db.online {
      return;
    }
    var i := 0;
    while i < |db.symptoms|
      invariant 0 <= i <= |db.symptoms|
      invariant r == Filter(db.symptoms[..i], OfPatient(patientId))
    {
      assert db.symptoms[..i + 1][..i] == db.symptoms[..i];
      if db.symptoms[i].patientId == patientId {
        r := r + [db.symptoms[i]];
      }
      i := i + 1;
    }
    assert db.symptoms[..i] == db.symptoms;
  }
}
