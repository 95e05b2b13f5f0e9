/** The values the in-memory store (server/DataStorage.java) keeps, and the
    agreement between its maps that every operation preserves, stated on
    the maps themselves. */
module StoreRecords {
  import opened Common
  import opened Pojos

  datatype Role = PATIENT | DOCTOR

  /** `User(username, password, role)` as `validateLogin` builds it. */
  datatype User = User(username: string, password: string, role: Role)

  /** A registered doctor; `patients` is its own list, which may be null. */
  datatype StoredDoctor = StoredDoctor(id: int, name: string, surname: string, email: string,
                                       phone: string, patients: Option<seq<int>>)

  /** A registered patient; `doctorId` is the doctor it was assigned, if any. */
  datatype StoredPatient = StoredPatient(id: int, name: string, surname: string, email: string,
                                         phone: string, dob: string, sex: Option<Sex>,
                                         doctorId: Option<int>)

  /** An appointment; each party is the id of the object passed in, or None
      for null. */
  datatype StoredAppointment = StoredAppointment(id: int, date: string, message: string,
                                                 doctorId: Option<int>, patientId: Option<int>)

  datatype MeasurementType = ECG | EDA

  datatype StoredMeasurement = StoredMeasurement(id: int, kind: MeasurementType, values: seq<int>,
                                                 date: string, patientId: Option<int>)

  datatype StoredSymptoms = StoredSymptoms(id: int, description: string, date: string,
                                           patientId: Option<int>)

  /** No id is listed twice. */
  predicate NoDuplicates(s: seq<int>) {
    forall i, j :: 0 <= i < j < |s| ==> s[i] != s[j]
  }

  // The ids handed out from one sequence: positive, below the next value of
  // the sequence, and strictly increasing along the list.

  predicate AppointmentIdsFresh(s: seq<StoredAppointment>, next: int) {
    && (forall i :: 0 <= i < |s| ==> 0 < s[i].id < next)
    && (forall i, j :: 0 <= i < j < |s| ==> s[i].id < s[j].id)
  }

  predicate MeasurementIdsFresh(s: seq<StoredMeasurement>, next: int) {
    && (forall i :: 0 <= i < |s| ==> 0 < s[i].id < next)
    && (forall i, j :: 0 <= i < j < |s| ==> s[i].id < s[j].id)
  }

  predicate SymptomsIdsFresh(s: seq<StoredSymptoms>, next: int) {
    && (forall i :: 0 <= i < |s| ==> 0 < s[i].id < next)
    && (forall i, j :: 0 <= i < j < |s| ==> s[i].id < s[j].id)
  }

  /** The doctor maps: each id below the sequence and its own key, each
      email indexing the doctor that holds it. */
  predicate DoctorIndexValid(next: int, byId: map<int, StoredDoctor>, byEmail: map<string, int>) {
    && 1 <= next
    && (forall id :: id in byId ==> 0 < id < next && byId[id].id == id)
    && (forall e :: e in byEmail ==> byEmail[e] in byId && byId[byEmail[e]].email == e)
  }

  predicate PatientIndexValid(next: int, byId: map<int, StoredPatient>, byEmail: map<string, int>) {
    && 1 <= next
    && (forall id :: id in byId ==> 0 < id < next && byId[id].id == id)
    && (forall e :: e in byEmail ==> byEmail[e] in byId && byId[byEmail[e]].email == e)
  }

  /** Every username with a password is the email of exactly one account,
      doctor or patient, and its recorded role is that account's. */
  ghost predicate AccountIndexValid(credentials: map<string, string>, roles: map<string, Role>,
                              doctorIdByEmail: map<string, int>, patientIdByEmail: map<string, int>) {
    forall e :: (e in credentials <==> e in roles)
                && (e in credentials <==> e in doctorIdByEmail || e in patientIdByEmail)
                && !(e in doctorIdByEmail && e in patientIdByEmail)
                && (e in roles ==> roles[e] == if e in doctorIdByEmail then DOCTOR else PATIENT)
  }

  /** Storing a doctor under the next id keeps the doctor maps valid. */
  lemma DoctorIndexAdd(next: int, byId: map<int, StoredDoctor>, byEmail: map<string, int>, doctor: StoredDoctor)
    requires DoctorIndexValid(next, byId, byEmail) && doctor.email !in byEmail
    ensures DoctorIndexValid(next + 1, byId[next := doctor.(id := next)], byEmail[doctor.email := next])
  {
    assert next !in byId;
  }

  lemma PatientIndexAdd(next: int, byId: map<int, StoredPatient>, byEmail: map<string, int>, patient: StoredPatient)
    requires PatientIndexValid(next, byId, byEmail) && patient.email !in byEmail
    ensures PatientIndexValid(next + 1, byId[next := patient.(id := next)], byEmail[patient.email := next])
  {
    assert next !in byId;
  }

  /** A fresh username joins the doctor accounts. */
  lemma DoctorAccountAdd(credentials: map<string, string>, roles: map<string, Role>,
                         doctorIdByEmail: map<string, int>, patientIdByEmail: map<string, int>,
                         email: string, password: string, id: int)
    requires AccountIndexValid(credentials, roles, doctorIdByEmail, patientIdByEmail)
    requires email !in credentials
    ensures AccountIndexValid(credentials[email := password], roles[email := DOCTOR],
                              doctorIdByEmail[email := id], patientIdByEmail)
  {
  }

  /** A fresh username joins the patient accounts. */
  lemma PatientAccountAdd(credentials: map<string, string>, roles: map<string, Role>,
                          doctorIdByEmail: map<string, int>, patientIdByEmail: map<string, int>,
                          email: string, password: string, id: int)
    requires AccountIndexValid(credentials, roles, doctorIdByEmail, patientIdByEmail)
    requires email !in credentials
    ensures AccountIndexValid(credentials[email := password], roles[email := PATIENT],
                              doctorIdByEmail, patientIdByEmail[email := id])
  {
  }

  /** The account maps as a whole: the doctor maps, the patient maps and
      the shared credentials agree with each other. */
  ghost predicate AccountsOk(doctorIdSeq: int, patientIdSeq: int,
                             credentials: map<string, string>, roles: map<string, Role>,
                             doctorsById: map<int, StoredDoctor>, patientsById: map<int, StoredPatient>,
                             doctorIdByEmail: map<string, int>, patientIdByEmail: map<string, int>) {
    && DoctorIndexValid(doctorIdSeq, doctorsById, doctorIdByEmail)
    && PatientIndexValid(patientIdSeq, patientsById, patientIdByEmail)
    && AccountIndexValid(credentials, roles, doctorIdByEmail, patientIdByEmail)
  }

  /** The three lists as a whole. */
  predicate ListsOk(appointmentIdSeq: int, appointments: seq<StoredAppointment>,
                    measurementIdSeq: int, measurements: seq<StoredMeasurement>,
                    symptomsIdSeq: int, symptomsList: seq<StoredSymptoms>) {
    && 1 <= appointmentIdSeq && AppointmentIdsFresh(appointments, appointmentIdSeq)
    && 1 <= measurementIdSeq && MeasurementIdsFresh(measurements, measurementIdSeq)
    && 1 <= symptomsIdSeq && SymptomsIdsFresh(symptomsList, symptomsIdSeq)
  }

  /** `registerDoctor`'s update keeps the account maps valid. */
  lemma DoctorRegistered(doctorIdSeq: int, patientIdSeq: int,
                         credentials: map<string, string>, roles: map<string, Role>,
                         doctorsById: map<int, StoredDoctor>, patientsById: map<int, StoredPatient>,
                         doctorIdByEmail: map<string, int>, patientIdByEmail: map<string, int>,
                         doctor: StoredDoctor, password: string)
    requires AccountsOk(doctorIdSeq, patientIdSeq, credentials, roles, doctorsById, patientsById,
                        doctorIdByEmail, patientIdByEmail)
    requires doctor.email !in credentials
    ensures AccountsOk(doctorIdSeq + 1, patientIdSeq, credentials[doctor.email := password],
                       roles[doctor.email := DOCTOR], doctorsById[doctorIdSeq := doctor.(id := doctorIdSeq)],
                       patientsById, doctorIdByEmail[doctor.email := doctorIdSeq], patientIdByEmail)
  {
    DoctorIndexAdd(doctorIdSeq, doctorsById, doctorIdByEmail, doctor);
    DoctorAccountAdd(credentials, roles, doctorIdByEmail, patientIdByEmail, doctor.email, password, doctorIdSeq);
  }

  /** `registerPatient`'s update keeps the account maps valid. */
  lemma PatientRegistered(doctorIdSeq: int, patientIdSeq: int,
                          credentials: map<string, string>, roles: map<string, Role>,
                          doctorsById: map<int, StoredDoctor>, patientsById: map<int, StoredPatient>,
                          doctorIdByEmail: map<string, int>, patientIdByEmail: map<string, int>,
                          patient: StoredPatient, password: string)
    requires AccountsOk(doctorIdSeq, patientIdSeq, credentials, roles, doctorsById, patientsById,
                        doctorIdByEmail, patientIdByEmail)
    requires patient.email !in credentials
    ensures AccountsOk(doctorIdSeq, patientIdSeq + 1, credentials[patient.email := password],
                       roles[patient.email := PATIENT], doctorsById,
                       patientsById[patientIdSeq := patient.(id := patientIdSeq)],
                       doctorIdByEmail, patientIdByEmail[patient.email := patientIdSeq])
  {
    PatientIndexAdd(patientIdSeq, patientsById, patientIdByEmail, patient);
    PatientAccountAdd(credentials, roles, doctorIdByEmail, patientIdByEmail, patient.email, password, patientIdSeq);
  }
}
