/** server/DataStorage.java: the in-memory store the server kept before the
    database. Its static maps and lists become the fields of one object; the
    five `AtomicInteger` sequences become integer fields that start at 1 and
    are read and incremented by each `add`/`register`. A stored doctor,
    patient, appointment, measurement or symptom is kept as a value that
    names the objects it refers to by their ids. */
module DataStorage {
  import opened Common
  import opened Pojos
  import opened StoreRecords

  class InMemoryStore {
    var doctorIdSeq: int
    var patientIdSeq: int
    var appointmentIdSeq: int
    var measurementIdSeq: int
    var symptomsIdSeq: int

    /** Username (the email) to password, shared by both roles. */
    var credentials: map<string, string>
    var rolesByUsername: map<string, Role>

    var doctorsById: map<int, StoredDoctor>
    var patientsById: map<int, StoredPatient>
    var doctorIdByEmail: map<string, int>
    var patientIdByEmail: map<string, int>

    var appointments: seq<StoredAppointment>
    var measurements: seq<StoredMeasurement>
    var symptomsList: seq<StoredSymptoms>

    /** What every operation keeps: the maps agree with each other and
        with the sequences, and every list carries fresh ids. */
    ghost predicate Valid()
      reads this
    {
      && AccountsOk(doctorIdSeq, patientIdSeq, credentials, rolesByUsername, doctorsById, patientsById,
                    doctorIdByEmail, patientIdByEmail)
      && ListsOk(appointmentIdSeq, appointments, measurementIdSeq, measurements,
                 symptomsIdSeq, symptomsList)
    }

    /** The store as the class loads: every sequence at 1, nothing stored. */
    constructor ()
      ensures Valid()
      ensures doctorIdSeq == 1 && patientIdSeq == 1 && appointmentIdSeq == 1
      ensures measurementIdSeq == 1 && symptomsIdSeq == 1
      ensures credentials == map[] && rolesByUsername == map[]
      ensures doctorsById == map[] && patientsById == map[]
      ensures doctorIdByEmail == map[] && patientIdByEmail == map[]
      ensures appointments == [] && measurements == [] && symptomsList == []
    {
      doctorIdSeq, patientIdSeq, appointmentIdSeq, measurementIdSeq, symptomsIdSeq := 1, 1, 1, 1, 1;
      credentials, rolesByUsername := map[], map[];
      doctorsById, patientsById := map[], map[];
      doctorIdByEmail, patientIdByEmail := map[], map[];
      appointments, measurements, symptomsList := [], [], [];
    }

    /** `registerDoctor`: refused when the email already has a password, in
        either role; otherwise the doctor takes the next id and the four
        doctor-side maps record it. */
    method RegisterDoctor(doctor: StoredDoctor, password: string) returns (r: Result<int>)
      requires Valid()
      modifies this`doctorIdSeq, this`credentials, this`rolesByUsername, this`doctorsById,
               this`doctorIdByEmail
      ensures Valid()
      ensures r.Err? <==> doctor.email in old(credentials)
      ensures r.Err? ==> && r.failure == Failure("There is already a user with email: " + doctor.email)
                         && unchanged(this)
      ensures r.Ok? ==> && r.value == old(doctorIdSeq) && doctorIdSeq == old(doctorIdSeq) + 1
                        && credentials == old(credentials)[doctor.email := password]
                        && rolesByUsername == old(rolesByUsername)[doctor.email := DOCTOR]
                        && doctorsById == old(doctorsById)[r.value := doctor.(id := r.value)]
                        && doctorIdByEmail == old(doctorIdByEmail)[doctor.email := r.value]
                        && r.value !in old(doctorsById)
      ensures r.Ok? ==> ValidateLogin(doctor.email, password) == Some(User(doctor.email, password, DOCTOR))
    {
      if doctor.email in credentials {
        return Err(Failure("There is already a user with email: " + doctor.email));
      }
      var id := StoreDoctor(doctor, password);
      r := Ok(id);
    }

    /** The updates `registerDoctor` makes once the email is known to be new. */
    method StoreDoctor(doctor: StoredDoctor, password: string) returns (id: int)
      requires Valid() && doctor.email !in credentials
      modifies this`doctorIdSeq, this`credentials, this`rolesByUsername, this`doctorsById,
               this`doctorIdByEmail
      ensures Valid()
      ensures id == old(doctorIdSeq) && doctorIdSeq == old(doctorIdSeq) + 1
      ensures credentials == old(credentials)[doctor.email := password]
      ensures rolesByUsername == old(rolesByUsername)[doctor.email := DOCTOR]
      ensures doctorsById == old(doctorsById)[id := doctor.(id := id)]
      ensures doctorIdByEmail == old(doctorIdByEmail)[doctor.email := id]
    {
      id := doctorIdSeq;
      DoctorRegistered(doctorIdSeq, patientIdSeq, credentials, rolesByUsername, doctorsById, patientsById,
                       doctorIdByEmail, patientIdByEmail, doctor, password);
      doctorIdSeq, credentials, rolesByUsername, doctorsById, doctorIdByEmail :=
        doctorIdSeq + 1, credentials[doctor.email := password], rolesByUsername[doctor.email := DOCTOR],
        doctorsById[id := doctor.(id := id)], doctorIdByEmail[doctor.email := id];
    }

    /** `getDoctorById`: the doctor stored under this id, or null. */
    function GetDoctorById(id: int): (d: Option<StoredDoctor>)
      reads this`doctorsById
      ensures d.Some? <==> id in doctorsById
      ensures d.Some? ==> d.value == doctorsById[id]
    {
      if id in doctorsById then Some(doctorsById[id]) else None
    }

    /** `listAllDoctors`: every stored doctor once, in the map's own order. */
    method ListAllDoctors() returns (r: seq<StoredDoctor>)
      ensures |r| == |doctorsById|
      ensures forall id :: id in doctorsById ==> doctorsById[id] in r
      ensures forall d :: d in r ==> exists id :: id in doctorsById && doctorsById[id] == d
    {
      r := [];
      var left := doctorsById.Keys;
      while left != {}
        invariant left <= doctorsById.Keys
        invariant |r| + |left| == |doctorsById|
        invariant forall d :: d in r ==> exists id :: id in doctorsById && doctorsById[id] == d
        invariant forall id :: id in doctorsById && id !in left ==> doctorsById[id] in r
        decreases |left|
      {
        NonEmptyHasMember(left);
        var id :| id in left;
        r := r + [doctorsById[id]];
        left := left - {id};
      }
    }

    /** `registerPatient`: the same as for a doctor, on the patient maps. */
    method RegisterPatient(patient: StoredPatient, password: string) returns (r: Result<int>)
      requires Valid()
      modifies this`patientIdSeq, this`credentials, this`rolesByUsername, this`patientsById,
               this`patientIdByEmail
      ensures Valid()
      ensures r.Err? <==> patient.email in old(credentials)
      ensures r.Err? ==> && r.failure == Failure("There is already a user with email: " + patient.email)
                         && unchanged(this)
      ensures r.Ok? ==> && r.value == old(patientIdSeq) && patientIdSeq == old(patientIdSeq) + 1
                        && credentials == old(credentials)[patient.email := password]
                        && rolesByUsername == old(rolesByUsername)[patient.email := PATIENT]
                        && patientsById == old(patientsById)[r.value := patient.(id := r.value)]
                        && patientIdByEmail == old(patientIdByEmail)[patient.email := r.value]
                        && r.value !in old(patientsById)
      ensures r.Ok? ==> ValidateLogin(patient.email, password) == Some(User(patient.email, password, PATIENT))
    {
      if patient.email in credentials {
        return Err(Failure("There is already a user with email: " + patient.email));
      }
      var id := StorePatient(patient, password);
      r := Ok(id);
    }

    /** The updates `registerPatient` makes once the email is known to be new. */
    method StorePatient(patient: StoredPatient, password: string) returns (id: int)
      requires Valid() && patient.email !in credentials
      modifies this`patientIdSeq, this`credentials, this`rolesByUsername, this`patientsById,
               this`patientIdByEmail
      ensures Valid()
      ensures id == old(patientIdSeq) && patientIdSeq == old(patientIdSeq) + 1
      ensures credentials == old(credentials)[patient.email := password]
      ensures rolesByUsername == old(rolesByUsername)[patient.email := PATIENT]
      ensures patientsById == old(patientsById)[id := patient.(id := id)]
      ensures patientIdByEmail == old(patientIdByEmail)[patient.email := id]
    {
      id := patientIdSeq;
      PatientRegistered(doctorIdSeq, patientIdSeq, credentials, rolesByUsername, doctorsById, patientsById,
                        doctorIdByEmail, patientIdByEmail, patient, password);
      patientIdSeq, credentials, rolesByUsername, patientsById, patientIdByEmail :=
        patientIdSeq + 1, credentials[patient.email := password], rolesByUsername[patient.email := PATIENT],
        patientsById[id := patient.(id := id)], patientIdByEmail[patient.email := id];
    }

    /** `getPatientById`. */
    function GetPatientById(id: int): (p: Option<StoredPatient>)
      reads this`patientsById
      ensures p.Some? <==> id in patientsById
      ensures p.Some? ==> p.value == patientsById[id]
    {
      if id in patientsById then Some(patientsById[id]) else None
    }

    /** `listAllPatients`: every stored patient once, in the map's own order. */
    method ListAllPatients() returns (r: seq<StoredPatient>)
      ensures |r| == |patientsById|
      ensures forall id :: id in patientsById ==> patientsById[id] in r
      ensures forall p :: p in r ==> exists id :: id in patientsById && patientsById[id] == p
    {
      r := [];
      var left := patientsById.Keys;
      while left != {}
        invariant left <= patientsById.Keys
        invariant |r| + |left| == |patientsById|
        invariant forall p :: p in r ==> exists id :: id in patientsById && patientsById[id] == p
        invariant forall id :: id in patientsById && id !in left ==> patientsById[id] in r
        decreases |left|
      {
        NonEmptyHasMember(left);
        var id :| id in left;
        r := r + [patientsById[id]];
        left := left - {id};
      }
    }

    /** `assignDoctorToPatient`: refused unless both ids are stored;
        otherwise the patient's doctor becomes this one and, when the doctor
        keeps a list, the patient joins it unless already there. */
    method AssignDoctorToPatient(patientId: int, doctorId: int) returns (r: Result<()>)
      requires Valid()
      modifies this`patientsById, this`doctorsById
      ensures Valid()
      ensures r.Err? <==> patientId !in old(patientsById) || doctorId !in old(doctorsById)
      ensures r.Err? ==> r.failure == Failure("Patient or doctor not found") && unchanged(this)
      ensures r.Ok? ==> patientsById == old(patientsById)[patientId := old(patientsById)[patientId].(doctorId := Some(doctorId))]
      ensures r.Ok? ==> doctorsById == old(doctorsById)[doctorId := JoinList(old(doctorsById)[doctorId], patientId)]
    {
      if patientId !in patientsById || doctorId !in doctorsById {
        return Err(Failure("Patient or doctor not found"));
      }
      var p := patientsById[patientId];
      var d := doctorsById[doctorId];
      patientsById := patientsById[patientId := p.(doctorId := Some(doctorId))];
      if d.patients.Some? && patientId !in d.patients.value {
        doctorsById := doctorsById[doctorId := d.(patients := Some(d.patients.value + [patientId]))];
      }
      r := Ok(());
    }

    /** `validateLogin`: null for an unknown username or a different
        password; otherwise the user with its recorded role, PATIENT when
        none is recorded. */
    function ValidateLogin(username: string, password: string): (u: Option<User>)
      reads this`credentials, this`rolesByUsername
      ensures u.Some? <==> username in credentials && credentials[username] == password
      ensures u.Some? ==> u.value.username == username && u.value.password == password
      ensures u.Some? ==> u.value.role == (if username in rolesByUsername then rolesByUsername[username]
                                           else PATIENT)
    {
      if username !in credentials || credentials[username] != password then None
      else
        var role := if username in rolesByUsername then rolesByUsername[username] else PATIENT;
        Some(User(username, password, role))
    }

    /** `addAppointment`: appended at the end under the next id. */
    method AddAppointment(patientId: Option<int>, doctorId: Option<int>, date: string, message: string)
      returns (a: StoredAppointment)
      requires Valid()
      modifies this`appointmentIdSeq, this`appointments
      ensures Valid()
      ensures a == StoredAppointment(old(appointmentIdSeq), date, message, doctorId, patientId)
      ensures appointments == old(appointments) + [a] && appointmentIdSeq == old(appointmentIdSeq) + 1
    {
      a := StoredAppointment(appointmentIdSeq, date, message, doctorId, patientId);
      appointmentIdSeq := appointmentIdSeq + 1;
      appointments := appointments + [a];
    }

    /** `listAppointmentsForDoctor`: in insertion order, the appointments of
        this doctor and, when a patient id is given, of that patient. */
    method ListAppointmentsForDoctor(doctorId: int, patientId: Option<int>) returns (r: seq<StoredAppointment>)
      ensures r == Filter(appointments, (a: StoredAppointment) => ForDoctor(a, doctorId, patientId))
    {
      r := [];
      var i := 0;
      while i < |appointments|
        invariant 0 <= i <= |appointments|
        invariant r == Filter(appointments[..i], (a: StoredAppointment) => ForDoctor(a, doctorId, patientId))
      {
        assert appointments[..i + 1][..i] == appointments[..i];
        var a := appointments[i];
        if a.doctorId == Some(doctorId) {
          if patientId.None? || a.patientId == patientId {
            r := r + [a];
          }
        }
        i := i + 1;
      }
      assert appointments[..i] == appointments;
    }

    /** `listAppointmentsForPatient`: this patient's appointments, in
        insertion order. */
    method ListAppointmentsForPatient(patientId: int) returns (r: seq<StoredAppointment>)
      ensures r == Filter(appointments, (a: StoredAppointment) => a.patientId == Some(patientId))
    {
      r := [];
      var i := 0;
      while i < |appointments|
        invariant 0 <= i <= |appointments|
        invariant r == Filter(appointments[..i], (a: StoredAppointment) => a.patientId == Some(patientId))
      {
        assert appointments[..i + 1][..i] == appointments[..i];
        if appointments[i].patientId == Some(patientId) {
          r := r + [appointments[i]];
        }
        i := i + 1;
      }
      assert appointments[..i] == appointments;
    }

    /** `addMeasurement`: appended at the end under the next id. */
    method AddMeasurement(patientId: Option<int>, kind: MeasurementType, values: seq<int>, date: string)
      returns (m: StoredMeasurement)
      requires Valid()
      modifies this`measurementIdSeq, this`measurements
      ensures Valid()
      ensures m == StoredMeasurement(old(measurementIdSeq), kind, values, date, patientId)
      ensures measurements == old(measurements) + [m] && measurementIdSeq == old(measurementIdSeq) + 1
    {
      m := StoredMeasurement(measurementIdSeq, kind, values, date, patientId);
      measurementIdSeq := measurementIdSeq + 1;
      measurements := measurements + [m];
    }

    /** `listMeasurementsForPatient`: in insertion order. */
    method ListMeasurementsForPatient(patientId: int) returns (r: seq<StoredMeasurement>)
      ensures r == Filter(measurements, (m: StoredMeasurement) => m.patientId == Some(patientId))
    {
      r := [];
      var i := 0;
      while i < |measurements|
        invariant 0 <= i <= |measurements|
        invariant r == Filter(measurements[..i], (m: StoredMeasurement) => m.patientId == Some(patientId))
      {
        assert measurements[..i + 1][..i] == measurements[..i];
        if measurements[i].patientId == Some(patientId) {
          r := r + [measurements[i]];
        }
        i := i + 1;
      }
      assert measurements[..i] == measurements;
    }

    /** `addSymptoms`: appended at the end under the next id. */
    method AddSymptoms(patientId: Option<int>, description: string, date: string)
      returns (s: StoredSymptoms)
      requires Valid()
      modifies this`symptomsIdSeq, this`symptomsList
      ensures Valid()
      ensures s == StoredSymptoms(old(symptomsIdSeq), description, date, patientId)
      ensures symptomsList == old(symptomsList) + [s] && symptomsIdSeq == old(symptomsIdSeq) + 1
    {
      s := StoredSymptoms(symptomsIdSeq, description, date, patientId);
      symptomsIdSeq := symptomsIdSeq + 1;
      symptomsList := symptomsList + [s];
    }

    /** `listSymptomsForPatient`: in insertion order. */
    method ListSymptomsForPatient(patientId: int) returns (r: seq<StoredSymptoms>)
      ensures r == Filter(symptomsList, (s: StoredSymptoms) => s.patientId == Some(patientId))
    {
      r := [];
      var i := 0;
      while i < |symptomsList|
        invariant 0 <= i <= |symptomsList|
        invariant r == Filter(symptomsList[..i], (s: StoredSymptoms) => s.patientId == Some(patientId))
      {
        assert symptomsList[..i + 1][..i] == symptomsList[..i];
        if symptomsList[i].patientId == Some(patientId) {
          r := r + [symptomsList[i]];
        }
        i := i + 1;
      }
      assert symptomsList[..i] == symptomsList;
    }
  }

  /** The test `listAppointmentsForDoctor` applies to each appointment. */
  predicate ForDoctor(a: StoredAppointment, doctorId: int, patientId: Option<int>) {
    a.doctorId == Some(doctorId) && (patientId.None? || a.patientId == patientId)
  }

  /** Insertion order: after `addAppointment`, a doctor's listing is the
      earlier listing followed by the new appointment when it matches. */
  lemma AddedAppointmentListedLast(appointments: seq<StoredAppointment>, a: StoredAppointment,
                                   doctorId: int, patientId: Option<int>)
    ensures var keep := (x: StoredAppointment) => ForDoctor(x, doctorId, patientId);
            Filter(appointments + [a], keep)
              == Filter(appointments, keep) + (if ForDoctor(a, doctorId, patientId) then [a] else [])
  {
    var keep := (x: StoredAppointment) => ForDoctor(x, doctorId, patientId);
    FilterAppend(appointments, [a], keep);
    FilterSingleton(a, keep);
  }

  /** A doctor's list after `assignDoctorToPatient`: the patient is added
      only when the list exists and does not already hold it. */
  function JoinList(d: StoredDoctor, patientId: int): (r: StoredDoctor)
    ensures r.id == d.id && r.email == d.email
    ensures r.patients.Some? <==> d.patients.Some?
    ensures r.patients.Some? ==> patientId in r.patients.value
    ensures r.patients.Some? ==> forall q :: q in r.patients.value <==> q in d.patients.value || q == patientId
    ensures r.patients.Some? && NoDuplicates(d.patients.value) ==> NoDuplicates(r.patients.value)
  {
    if d.patients.Some? && patientId !in d.patients.value
    then d.(patients := Some(d.patients.value + [patientId]))
    else d
  }
}
