/** The SQLite database behind the DAOs (server/database/DatabaseManager.java):
    six tables, each a sequence of rows in insertion order. Every table's key
    is `INTEGER PRIMARY KEY AUTOINCREMENT`; nothing is ever deleted, and a
    rejected INSERT is rolled back together with its counter, so the i-th
    row (from 0) of a table carries id i + 1 and the next id is the table's
    length plus one. `Valid` is what the schema enforces on every state the
    DAOs can produce: those ids, UNIQUE(email) on doctors and on patients,
    UNIQUE(doctor_id, datetime) on appointments, and the foreign keys, which
    are enforced because the connection turns on `PRAGMA foreign_keys`.
    A connection that cannot run statements is the state `online == false`:
    every statement then raises SQLException. */
module Schema {
  import opened Common

  datatype DoctorRow = DoctorRow(id: int, name: string, surname: string, email: string,
                                 password: string, phone: string)

  datatype PatientRow = PatientRow(id: int, name: string, surname: string, email: string,
                                   password: string, dob: string, sex: string, phone: string,
                                   doctorId: Option<int>)

  datatype AppointmentRow = AppointmentRow(id: int, doctorId: int, patientId: int,
                                           datetime: string, message: string)

  datatype MeasurementRow = MeasurementRow(id: int, patientId: int, kind: string,
                                           startedAt: string, filePath: string)

  datatype SymptomRow = SymptomRow(id: int, patientId: int, description: string, timestamp: string)

  datatype MessageRow = MessageRow(id: int, doctorId: int, patientId: int,
                                   senderRole: string, timestamp: string, text: string)

  class Database {
    /** False while statements cannot run: each one raises SQLException. */
    var online: bool
    var doctors: seq<DoctorRow>
    var patients: seq<PatientRow>
    var appointments: seq<AppointmentRow>
    var measurements: seq<MeasurementRow>
    var symptoms: seq<SymptomRow>
    var messages: seq<MessageRow>

    // The AUTOINCREMENT keys: row i carries id i + 1.

    predicate DoctorIds()
      reads this`doctors
    {
      forall i :: 0 <= i < |doctors| ==> doctors[i].id == i + 1
    }

    predicate PatientIds()
      reads this`patients
    {
      forall i :: 0 <= i < |patients| ==> patients[i].id == i + 1
    }

    predicate AppointmentIds()
      reads this`appointments
    {
      forall i :: 0 <= i < |appointments| ==> appointments[i].id == i + 1
    }

    predicate MeasurementIds()
      reads this`measurements
    {
      forall i :: 0 <= i < |measurements| ==> measurements[i].id == i + 1
    }

    predicate SymptomIds()
      reads this`symptoms
    {
      forall i :: 0 <= i < |symptoms| ==> symptoms[i].id == i + 1
    }

    predicate MessageIds()
      reads this`messages
    {
      forall i :: 0 <= i < |messages| ==> messages[i].id == i + 1
    }

    /** What a foreign key to doctors(id) checks: some row has this id. */
    predicate DoctorExists(id: int)
      reads this`doctors
    {
      exists i :: 0 <= i < |doctors| && doctors[i].id == id
    }

    /** What a foreign key to patients(id) checks. */
    predicate PatientExists(id: int)
      reads this`patients
    {
      exists i :: 0 <= i < |patients| && patients[i].id == id
    }

    predicate DoctorEmailTaken(email: string)
      reads this`doctors
    {
      exists i :: 0 <= i < |doctors| && doctors[i].email == email
    }

    predicate PatientEmailTaken(email: string)
      reads this`patients
    {
      exists i :: 0 <= i < |patients| && patients[i].email == email
    }

    predicate SlotTaken(doctorId: int, datetime: string)
      reads this`appointments
    {
      exists i :: 0 <= i < |appointments| && appointments[i].doctorId == doctorId
                                          && appointments[i].datetime == datetime
    }

    // email TEXT UNIQUE on doctors and on patients.

    predicate DoctorEmailsUnique()
      reads this`doctors
    {
      forall i, j :: 0 <= i < j < |doctors| ==> doctors[i].email != doctors[j].email
    }

    predicate PatientEmailsUnique()
      reads this`patients
    {
      forall i, j :: 0 <= i < j < |patients| ==> patients[i].email != patients[j].email
    }

    /** UNIQUE (doctor_id, datetime) on appointments. */
    predicate SlotsUnique()
      reads this`appointments
    {
      forall i, j :: 0 <= i < j < |appointments| ==>
        appointments[i].doctorId != appointments[j].doctorId
        || appointments[i].datetime != appointments[j].datetime
    }

    // Foreign keys, stated on the id ranges the keys above give; a NULL
    // doctor_id on a patient references nothing.

    predicate PatientDoctorsExist()
      reads this`patients, this`doctors
    {
      forall i :: 0 <= i < |patients| && patients[i].doctorId.Some? ==>
        0 < patients[i].doctorId.value <= |doctors|
    }

    predicate AppointmentRefsExist()
      reads this`appointments, this`doctors, this`patients
    {
      forall i :: 0 <= i < |appointments| ==>
        0 < appointments[i].doctorId <= |doctors| && 0 < appointments[i].patientId <= |patients|
    }

    predicate MeasurementRefsExist()
      reads this`measurements, this`patients
    {
      forall i :: 0 <= i < |measurements| ==> 0 < measurements[i].patientId <= |patients|
    }

    predicate SymptomRefsExist()
      reads this`symptoms, this`patients
    {
      forall i :: 0 <= i < |symptoms| ==> 0 < symptoms[i].patientId <= |patients|
    }

    predicate MessageRefsExist()
      reads this`messages, this`doctors, this`patients
    {
      forall i :: 0 <= i < |messages| ==>
        0 < messages[i].doctorId <= |doctors| && 0 < messages[i].patientId <= |patients|
    }

    ghost predicate Valid()
      reads this
    {
      && DoctorIds() && PatientIds() && AppointmentIds()
      && MeasurementIds() && SymptomIds() && MessageIds()
      && DoctorEmailsUnique() && PatientEmailsUnique() && SlotsUnique()
      && PatientDoctorsExist() && AppointmentRefsExist() && MeasurementRefsExist()
      && SymptomRefsExist() && MessageRefsExist()
    }

    /** Under the AUTOINCREMENT keys, a doctor id exists exactly when it is
        in 1..|doctors|; the row with id `id` is at position id - 1. */
    lemma DoctorExistsIffInRange(id: int)
      requires DoctorIds()
      ensures DoctorExists(id) <==> 0 < id <= |doctors|
    {
      if 0 < id <= |doctors| {
        assert doctors[id - 1].id == id;
      }
    }

    lemma PatientExistsIffInRange(id: int)
      requires PatientIds()
      ensures PatientExists(id) <==> 0 < id <= |patients|
    {
      if 0 < id <= |patients| {
        assert patients[id - 1].id == id;
      }
    }

    /** A freshly created database: every table empty. */
    constructor ()
      ensures Valid() && online
      ensures doctors == [] && patients == [] && appointments == []
      ensures measurements == [] && symptoms == [] && messages == []
    {
      online := true;
      doctors, patients, appointments := [], [], [];
      measurements, symptoms, messages := [], [], [];
    }
  }
}
