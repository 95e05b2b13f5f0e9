/** The router of server/Protocol.java: `process` and its fourteen
    handlers, over the database of the DAOs and the signal file store.
    A handler's `Result` is an exception escaping it (`Err`), which
    `process` turns into an "Internal error" response; the password hash
    function, the clock and today's date are taken from `Env`. */
module Protocol {
  import opened Common
  import opened Json
  import opened Pojos
  import opened Schema
  import opened Envelope
  import opened Requests
  import opened CsvStore
  import opened MeasurementCsv
  import Encryption
  import DoctorDAO
  import PatientDAO
  import AppointmentDAO
  import MessageDAO
  import MeasurementDAO
  import SymptomDAO

  /** What the router takes from outside a request: PBKDF2, the current
      `LocalDateTime` as text, and today's `yyyy-MM-dd`. */
  datatype Env = Env(pbkdf2: Encryption.Pbkdf2, now: string, today: string)

  function Hash(env: Env, password: string): string {
    Encryption.EncryptPassword(env.pbkdf2, password)
  }

  const MISSING_REGISTRATION: string := "Missing required fields (name, surname, email, password)"
  const REGISTER_FAILED: string := "Register failed (maybe duplicated email)"

  /** The message of the NullPointerException LOGIN raises for a patient
      without a doctor (the JDK's helpful message). */
  const NO_DOCTOR_NPE: string :=
    "Cannot invoke \"pojos.Doctor.getId()\" because the return value of \"pojos.Patient.getDoctor()\" is null"

  // -------------------------------------------------------------- process

  /** A member of the request read as text when present; a member that is
      not a primitive (a JSON null, an object) makes `getAsString` raise. */
  function ReadOptional(req: Object, key: string): (r: Result<Option<string>>)
    ensures key !in req ==> r == Ok(None)
    ensures key in req ==> (r.Ok? <==> GetAsString(req[key]).Ok?)
    ensures key in req && r.Ok? ==> r.value == Some(GetAsString(req[key]).value)
  {
    if key in req then
      var s :- GetAsString(req[key]);
      Ok(Some(s))
    else Ok(None)
  }

  /** The action a request line is dispatched to, if it reaches a handler:
      it parses, its `action` and `requestId` can be read, and the action is
      one the router knows. */
  function Dispatched(message: Inbound): Option<Action> {
    if !message.Parsed? then None
    else
      var action := ReadOptional(message.req, "action");
      var requestId := ReadOptional(message.req, "requestId");
      if action.Err? || requestId.Err? || action.value.None? then None
      else ParseAction(action.value.value)
  }

  /** The answer to an exception that escaped a handler or the reading of
      the request: no request id, action UNKNOWN. */
  predicate IsInternalError(j: Json) {
    IsEnvelope(j) && "requestId" !in j.fields && j.fields["action"] == JStr(UNKNOWN) && Status(j) == "ERROR"
  }

  function InternalError(e: Failure): (r: Json)
    ensures IsInternalError(r)
  {
    ErrorResponse(None, UNKNOWN, "Internal error: " + e.message)
  }

  /** `process`: one request line in, one response out. Every response is
      an envelope except LIST_PATIENTS' listing; an exception becomes an
      "Internal error" answer; only the six writing actions change the
      database or the signal files. */
  method Process(db: Database, files: CsvFiles, env: Env, message: Inbound) returns (response: Json)
    requires db.Valid()
    modifies db`doctors, db`patients, db`symptoms, db`measurements, db`appointments, db`messages, files`files
    ensures db.Valid()
    ensures IsEnvelope(response) || (Dispatched(message) == Some(LIST_PATIENTS) && Status(response) == "OK")
    ensures message.Blank? ==> response == ErrorResponse(None, UNKNOWN, "Empty message")
    ensures message.Malformed? ==> response == ErrorResponse(None, UNKNOWN, "Invalid JSON: " + message.detail)
    ensures message.Parsed? ==>
              var action := ReadOptional(message.req, "action");
              var requestId := ReadOptional(message.req, "requestId");
              && (action.Err? ==> response == InternalError(action.failure))
              && (action.Ok? && requestId.Err? ==> response == InternalError(requestId.failure))
              && (action == Ok(None) && requestId.Ok? ==>
                    response == ErrorResponse(requestId.value, UNKNOWN, "Missing 'action' field"))
              && (action.Ok? && action.value.Some? && requestId.Ok? && ParseAction(action.value.value).None? ==>
                    response == ErrorResponse(requestId.value, action.value.value, "Unknown action: " + action.value.value))
              && (Dispatched(message).Some? ==> Echoes(response, requestId.value) || IsInternalError(response))
    ensures Dispatched(message).None? || !Writes(Dispatched(message).value) ==> unchanged(db, files)
  {
    match message
    case Blank =>
      return ErrorResponse(None, UNKNOWN, "Empty message");
    case Malformed(detail) =>
      return ErrorResponse(None, UNKNOWN, "Invalid JSON: " + detail);
    case Parsed(req) =>
      var action := ReadOptional(req, "action");
      if action.Err? {
        return InternalError(action.failure);
      }
      var requestId := ReadOptional(req, "requestId");
      if requestId.Err? {
        return InternalError(requestId.failure);
      }
      if action.value.None? {
        return ErrorResponse(requestId.value, UNKNOWN, "Missing 'action' field");
      }
      var name := action.value.value;
      var a := ParseAction(name);
      if a.None? {
        return ErrorResponse(requestId.value, name, "Unknown action: " + name);
      }
      var r := Dispatch(db, files, env, a.value, req, requestId.value);
      response := if r.Ok? then r.value else InternalError(r.failure);
  }

  /** The `switch (action)`: runs the action's handler on the request's
      payload. */
  method Dispatch(db: Database, files: CsvFiles, env: Env, a: Action, req: Object, requestId: Option<string>)
    returns (r: Result<Json>)
    requires db.Valid()
    modifies db`doctors, db`patients, db`symptoms, db`measurements, db`appointments, db`messages, files`files
    ensures db.Valid()
    ensures r.Ok? ==> Echoes(r.value, requestId) && (IsEnvelope(r.value) || (a == LIST_PATIENTS && Status(r.value) == "OK"))
    ensures !Writes(a) ==> unchanged(db, files)
  {
    var payload := GetPayload(req);
    if a == REGISTER_PATIENT || a == REGISTER_DOCTOR {
      r := DispatchRegistration(db, env, a, payload, requestId);
    } else if Writes(a) {
      r := DispatchWrite(db, files, env, a, payload, requestId);
    } else {
      r := DispatchRead(db, files, env, a, payload, requestId);
    }
  }

  /** The handlers of the two registrations. */
  method DispatchRegistration(db: Database, env: Env, a: Action, payload: Object, requestId: Option<string>)
    returns (r: Result<Json>)
    requires db.Valid() && (a == REGISTER_PATIENT || a == REGISTER_DOCTOR)
    modifies db`doctors, db`patients
    ensures db.Valid()
    ensures r.Ok? ==> Echoes(r.value, requestId) && IsEnvelope(r.value)
  {
    match a
    case REGISTER_PATIENT => r := RegisterPatient(db, env, payload, requestId);
    case REGISTER_DOCTOR => r := RegisterDoctor(db, env, payload, requestId);
  }

  /** The handlers of the four other actions that write. */
  method DispatchWrite(db: Database, files: CsvFiles, env: Env, a: Action, payload: Object,
                       requestId: Option<string>) returns (r: Result<Json>)
    requires db.Valid() && Writes(a) && a != REGISTER_PATIENT && a != REGISTER_DOCTOR
    modifies db`symptoms, db`measurements, db`appointments, db`messages, files`files
    ensures db.Valid()
    ensures r.Ok? ==> Echoes(r.value, requestId) && IsEnvelope(r.value)
  {
    match a
    case SEND_SYMPTOMS => r := SendSymptoms(db, env, payload, requestId);
    case SEND_MEASUREMENT => r := SendMeasurement(db, files, env, payload, requestId);
    case REQUEST_APPOINTMENT => r := RequestAppointment(db, payload, requestId);
    case SEND_MESSAGE => r := SendMessage(db, env, payload, requestId);
  }

  /** The handlers of the eight actions that only read. */
  method DispatchRead(db: Database, files: CsvFiles, env: Env, a: Action, payload: Object,
                      requestId: Option<string>) returns (r: Result<Json>)
    requires db.Valid() && !Writes(a)
    ensures r.Ok? ==> Echoes(r.value, requestId) && (IsEnvelope(r.value) || (a == LIST_PATIENTS && Status(r.value) == "OK"))
  {
    match a
    case LOGIN => r := Login(db, env, payload, requestId);
    case LIST_PATIENTS => r := ListPatients(db, payload, requestId);
    case LIST_APPOINTMENTS => r := ListAppointments(db, payload, requestId);
    case LIST_MEASUREMENTS => r := ListMeasurements(db, payload, requestId);
    case GET_MEASUREMENT_VALUES => r := GetMeasurementValues(db, files, payload, requestId);
    case LIST_SYMPTOMS => r := ListSymptoms(db, payload, requestId);
    case LIST_DOCTORS =>
      var resp := ListDoctors(db, requestId);
      r := Ok(resp);
    case LIST_MESSAGES => r := ListMessages(db, payload, requestId);
  }

  // ----------------------------------------------------- REGISTER_PATIENT

  predicate PatientFormBlank(f: PatientForm) {
    IsBlank(f.name) || IsBlank(f.surname) || IsBlank(f.email) || IsBlank(f.password)
  }

  /** The doctor named by a positive `doctorId`, when there is one. */
  predicate IdNamesDoctor(db: Database, f: PatientForm)
    reads db
  {
    f.doctorId > 0 && db.DoctorExists(f.doctorId)
  }

  /** The doctor named by a non-blank `doctorEmail`, when there is one. */
  predicate EmailNamesDoctor(db: Database, f: PatientForm)
    reads db
  {
    !IsBlank(f.doctorEmail) && db.DoctorEmailTaken(f.doctorEmail)
  }

  /** Some doctor carries the non-blank `doctorName`. */
  predicate NameNamesDoctor(db: Database, f: PatientForm)
    reads db
  {
    !IsBlank(f.doctorName) && exists i :: 0 <= i < |db.doctors| && db.doctors[i].name == f.doctorName
  }

  /** The doctor a new patient is assigned: looked up by id, then by email,
      then by name, each lookup tried only while none has succeeded and
      only when its field was given. */
  function ResolveDoctor(db: Database, f: PatientForm): (d: Option<Doctor>)
    reads db
    ensures d.Some? ==> db.online && db.DoctorExists(d.value.id)
    ensures d.None? <==>
              !db.online || (!IdNamesDoctor(db, f) && !EmailNamesDoctor(db, f) && !NameNamesDoctor(db, f))
    ensures db.online && IdNamesDoctor(db, f) ==> d.value.id == f.doctorId
    ensures db.online && !IdNamesDoctor(db, f) && EmailNamesDoctor(db, f) ==> d.value.email == f.doctorEmail
    ensures db.online && !IdNamesDoctor(db, f) && !EmailNamesDoctor(db, f) && NameNamesDoctor(db, f) ==>
              d.value.name == f.doctorName
  {
    var byId := if f.doctorId > 0 then DoctorDAO.GetDoctorById(db, f.doctorId) else None;
    var byEmail := if byId.None? && !IsBlank(f.doctorEmail) then DoctorDAO.GetDoctorByEmail(db, f.doctorEmail)
                   else byId;
    if byEmail.None? && !IsBlank(f.doctorName) then DoctorDAO.GetDoctorByName(db, f.doctorName) else byEmail
  }

  /** The payload of a successful REGISTER_PATIENT: the patient as read
      back from the database, and the id of the doctor resolved. */
  function RegisteredPatientPayload(p: Patient, doctorId: int): Object {
    var m := map["patientId" := JNum(p.id), "name" := JStr(p.name), "surname" := JStr(p.surname),
                 "email" := JStr(p.email), "dob" := JStr(p.dob)];
    var m := if p.sex.Some? then m["sex" := JStr(SexName(p.sex.value))] else m;
    m["phone" := JStr(p.phone)]["doctorId" := JNum(doctorId)]
  }

  /** The row REGISTER_PATIENT stores for a form, its doctor and an id. */
  function NewPatientRow(id: int, f: PatientForm, hash: string, doctorId: int): PatientRow {
    PatientRow(id, f.name, f.surname, f.email, hash, f.dob, f.sex, f.phone, Some(doctorId))
  }

  /** What storing a patient whose form has every required field and whose
      doctor was resolved to `doctorId` does: with the connection up and the
      email free, the patient is appended with the next id, the hash of the
      password and that doctor, and the answer carries the row as read back;
      otherwise nothing is stored and the INSERT is reported as rejected. */
  twostate predicate PatientRegistered(db: Database, env: Env, f: PatientForm, doctorId: int,
                                       requestId: Option<string>, resp: Json)
    reads db
  {
    && (!(old(db.online) && !old(db.PatientEmailTaken(f.email))) ==>
          && db.patients == old(db.patients)
          && resp == ErrorResponse(requestId, "REGISTER_PATIENT", REGISTER_FAILED))
    && (old(db.online) && !old(db.PatientEmailTaken(f.email)) ==>
          var row := NewPatientRow(|old(db.patients)| + 1, f, Hash(env, f.password), doctorId);
          && db.patients == old(db.patients) + [row]
          && resp == OkResponse(REGISTER_PATIENT, requestId, "Patient registered successfully",
                                RegisteredPatientPayload(PatientDAO.AsPatient(db, row), doctorId)))
  }

  /** The INSERT of `handleRegisterPatient` and the reading back of the
      row it stored. */
  method AddPatient(db: Database, env: Env, f: PatientForm, doctorId: int, requestId: Option<string>)
    returns (resp: Json)
    requires db.Valid() && db.DoctorExists(doctorId)
    modifies db`patients
    ensures db.Valid()
    ensures IsEnvelope(resp) && Echoes(resp, requestId)
    ensures PatientRegistered(db, env, f, doctorId, requestId, resp)
  {
    var ok := PatientDAO.RegisterPatient(db, f.name, f.surname, f.email, Hash(env, f.password),
                                         f.dob, f.sex, f.phone, doctorId);
    var patientId := if ok then PatientDAO.GetIdByEmail(db, f.email) else None;
    if !ok || patientId.None? {
      return ErrorResponse(requestId, "REGISTER_PATIENT", REGISTER_FAILED);
    }
    PatientDAO.StoredPatientIsFound(db, |db.patients| - 1);
    var patient := PatientDAO.GetPatientById(db, patientId.value);
    if patient.None? {
      // "Patient registered but not found": the id just found is a stored one.
      assert false;
    }
    assert patient.value == PatientDAO.AsPatient(db, db.patients[|db.patients| - 1]);
    resp := OkResponse(REGISTER_PATIENT, requestId, "Patient registered successfully",
                       RegisteredPatientPayload(patient.value, doctorId));
  }

  /** `handleRegisterPatient`: a blank required field, then a doctor that
      cannot be resolved, is refused before anything is stored; otherwise
      the patient is stored with the resolved doctor as `AddPatient` says. */
  method RegisterPatient(db: Database, env: Env, payload: Object, requestId: Option<string>)
    returns (r: Result<Json>)
    requires db.Valid()
    modifies db`patients
    ensures db.Valid()
    ensures ReadPatientForm(payload).Err? ==> r == Err(ReadPatientForm(payload).failure)
    ensures r.Err? ==> db.patients == old(db.patients)
    ensures ReadPatientForm(payload).Ok? ==> r.Ok? && IsEnvelope(r.value) && Echoes(r.value, requestId)
    ensures ReadPatientForm(payload).Ok? && PatientFormBlank(ReadPatientForm(payload).value) ==>
              && db.patients == old(db.patients)
              && r.value == ErrorResponse(requestId, "REGISTER_PATIENT", MISSING_REGISTRATION)
    ensures ReadPatientForm(payload).Ok? && !PatientFormBlank(ReadPatientForm(payload).value)
            && old(ResolveDoctor(db, ReadPatientForm(payload).value)).None? ==>
              && db.patients == old(db.patients)
              && r.value == ErrorResponse(requestId, "REGISTER_PATIENT", "Doctor not found")
    ensures ReadPatientForm(payload).Ok? && !PatientFormBlank(ReadPatientForm(payload).value)
            && old(ResolveDoctor(db, ReadPatientForm(payload).value)).Some? ==>
              PatientRegistered(db, env, ReadPatientForm(payload).value,
                                old(ResolveDoctor(db, ReadPatientForm(payload).value)).value.id, requestId, r.value)
  {
    var form := ReadPatientForm(payload);
    if form.Err? {
      return Err(form.failure);
    }
    var f := form.value;
    if PatientFormBlank(f) {
      return Ok(ErrorResponse(requestId, "REGISTER_PATIENT", MISSING_REGISTRATION));
    }
    var doctor := ResolveDoctor(db, f);
    if doctor.None? {
      return Ok(ErrorResponse(requestId, "REGISTER_PATIENT", "Doctor not found"));
    }
    var resp := AddPatient(db, env, f, doctor.value.id, requestId);
    r := Ok(resp);
  }

  // ------------------------------------------------------ REGISTER_DOCTOR

  predicate DoctorFormBlank(f: DoctorForm) {
    IsBlank(f.name) || IsBlank(f.surname) || IsBlank(f.email) || IsBlank(f.password)
  }

  /** The payload of a successful REGISTER_DOCTOR. */
  function RegisteredDoctorPayload(id: int, d: Doctor): Object {
    PutText(map["doctorId" := JNum(id), "name" := JStr(d.name), "surname" := JStr(d.surname),
                "email" := JStr(d.email)], "phone", d.phone)
  }

  /** What storing a doctor whose form has every required field does: with
      the connection up and the email free, the doctor is appended with the
      next id and the hash of the password, and the answer carries that
      row; otherwise nothing is stored and the INSERT is reported as
      rejected. */
  twostate predicate DoctorRegistered(db: Database, env: Env, f: DoctorForm, requestId: Option<string>,
                                      resp: Json)
    reads db
  {
    && (!(old(db.online) && !old(db.DoctorEmailTaken(f.email))) ==>
          && db.doctors == old(db.doctors)
          && resp == ErrorResponse(requestId, "REGISTER_DOCTOR", REGISTER_FAILED))
    && (old(db.online) && !old(db.DoctorEmailTaken(f.email)) ==>
          var id := |old(db.doctors)| + 1;
          && db.doctors == old(db.doctors) + [DoctorRow(id, f.name, f.surname, f.email, Hash(env, f.password), f.phone)]
          && resp == OkResponse(REGISTER_DOCTOR, requestId, "Doctor registered successfully",
                                RegisteredDoctorPayload(id, Doctor(id, f.name, f.surname, Some(f.phone), f.email))))
  }

  /** The INSERT of `handleRegisterDoctor` and the reading back of the row
      it stored. */
  method AddDoctor(db: Database, env: Env, f: DoctorForm, requestId: Option<string>) returns (resp: Json)
    requires db.Valid()
    modifies db`doctors
    ensures db.Valid()
    ensures IsEnvelope(resp) && Echoes(resp, requestId)
    ensures DoctorRegistered(db, env, f, requestId, resp)
  {
    var ok := DoctorDAO.Register(db, f.name, f.surname, f.email, Hash(env, f.password), f.phone);
    if !ok {
      return ErrorResponse(requestId, "REGISTER_DOCTOR", REGISTER_FAILED);
    }
    var doctorId := DoctorDAO.GetIdByEmail(db, f.email);
    if doctorId.None? {
      // "Doctor registered but ID not found": the row just stored has this email.
      assert false;
    }
    DoctorDAO.LookupsFindTheRow(db, |db.doctors| - 1);
    var doctor := DoctorDAO.GetDoctorById(db, doctorId.value);
    if doctor.None? {
      // "Doctor registered but not found": the id just found is a stored one.
      assert false;
    }
    assert doctor.value == Doctor(doctorId.value, f.name, f.surname, Some(f.phone), f.email);
    resp := OkResponse(REGISTER_DOCTOR, requestId, "Doctor registered successfully",
                       RegisteredDoctorPayload(doctorId.value, doctor.value));
  }

  /** `handleRegisterDoctor`: a blank required field is refused before
      anything is stored; otherwise the doctor is stored as `AddDoctor`
      says. */
  method RegisterDoctor(db: Database, env: Env, payload: Object, requestId: Option<string>)
    returns (r: Result<Json>)
    requires db.Valid()
    modifies db`doctors
    ensures db.Valid()
    ensures ReadDoctorForm(payload).Err? ==> r == Err(ReadDoctorForm(payload).failure)
    ensures ReadDoctorForm(payload).Ok? ==> r.Ok? && IsEnvelope(r.value) && Echoes(r.value, requestId)
    ensures r.Err? ==> db.doctors == old(db.doctors)
    ensures ReadDoctorForm(payload).Ok? && DoctorFormBlank(ReadDoctorForm(payload).value) ==>
              && db.doctors == old(db.doctors)
              && r.value == ErrorResponse(requestId, "REGISTER_DOCTOR", MISSING_REGISTRATION)
    ensures ReadDoctorForm(payload).Ok? && !DoctorFormBlank(ReadDoctorForm(payload).value) ==>
              DoctorRegistered(db, env, ReadDoctorForm(payload).value, requestId, r.value)
  {
    var form := ReadDoctorForm(payload);
    if form.Err? {
      return Err(form.failure);
    }
    var f := form.value;
    if DoctorFormBlank(f) {
      return Ok(ErrorResponse(requestId, "REGISTER_DOCTOR", MISSING_REGISTRATION));
    }
    var resp := AddDoctor(db, env, f, requestId);
    r := Ok(resp);
  }

  // ---------------------------------------------------------------- LOGIN

  predicate LoginBlank(f: LoginForm) {
    IsBlank(f.username) || IsBlank(f.password)
  }

  /** The session token handed out at login. */
  function Token(username: string): string {
    "session-" + username
  }

  /** The payload of a patient's login: the account, then its doctor. */
  function PatientLoginPayload(p: Patient, d: Doctor, username: string): Object {
    var m := map["userId" := JNum(p.id), "role" := JStr("PATIENT"), "token" := JStr(Token(username)),
                 "name" := JStr(p.name), "surname" := JStr(p.surname), "email" := JStr(p.email),
                 "dob" := JStr(p.dob), "phone" := JStr(p.phone)];
    var m := if p.sex.Some? then m["sex" := JStr(SexName(p.sex.value))] else m;
    PutText(m["doctor_id" := JNum(d.id)]["doctorName" := JStr(d.name)]
             ["doctorSurname" := JStr(d.surname)]["doctorEmail" := JStr(d.email)],
            "doctorPhone", d.phone)
  }

  /** The payload of a doctor's login. */
  function DoctorLoginPayload(d: Doctor, username: string): Object {
    PutText(map["userId" := JNum(d.id), "role" := JStr("DOCTOR"), "token" := JStr(Token(username)),
                "name" := JStr(d.name), "surname" := JStr(d.surname), "email" := JStr(d.email)],
            "phone", d.phone)
  }

  /** The patient account with this email has no doctor. */
  predicate Doctorless(db: Database, email: string)
    reads db
  {
    exists i :: 0 <= i < |db.patients| && db.patients[i].email == email && db.patients[i].doctorId.None?
  }

  /** An OK login as the stored patient with these credentials: the whole
      reply, whose payload is that row's flattened profile followed by its
      doctor's. */
  predicate PatientLoggedIn(db: Database, resp: Json, username: string, hash: string,
                            requestId: Option<string>)
    reads db
  {
    exists i :: && 0 <= i < |db.patients| && db.patients[i].email == username
                && db.patients[i].password == hash && db.patients[i].doctorId.Some?
                && var p := PatientDAO.AsPatient(db, db.patients[i]);
                   && p.doctor.Some?
                   && resp == OkResponse(LOGIN, requestId, "Login successful (Patient)",
                                         PatientLoginPayload(p, p.doctor.value, username))
  }

  /** An OK login as the stored doctor with these credentials: the whole
      reply, whose payload is that row's flattened profile. */
  predicate DoctorLoggedIn(db: Database, resp: Json, username: string, hash: string,
                           requestId: Option<string>)
    reads db
  {
    exists i :: && 0 <= i < |db.doctors| && db.doctors[i].email == username
                && db.doctors[i].password == hash
                && resp == OkResponse(LOGIN, requestId, "Login successful (Doctor)",
                                      DoctorLoginPayload(DoctorDAO.AsDoctor(db.doctors[i]), username))
  }

  /** `handleLogin`: the credentials are tried as a patient's first and as
      a doctor's only then. */
  method Login(db: Database, env: Env, payload: Object, requestId: Option<string>) returns (r: Result<Json>)
    requires db.Valid()
    ensures ReadLoginForm(payload).Err? ==> r == Err(ReadLoginForm(payload).failure)
    ensures r.Ok? ==> IsEnvelope(r.value) && Echoes(r.value, requestId)
    ensures ReadLoginForm(payload).Ok? ==>
              var f := ReadLoginForm(payload).value;
              var h := Hash(env, f.password);
              var asPatient := PatientDAO.ValidateLogin(db, f.username, h);
              var asDoctor := DoctorDAO.ValidateLogin(db, f.username, h);
              && (LoginBlank(f) ==> r == Ok(ErrorResponse(requestId, "LOGIN", "Missing username or password")))
              && (!LoginBlank(f) && asPatient ==> (r.Err? <==> Doctorless(db, f.username)))
              && (!LoginBlank(f) && asPatient && r.Ok? ==> PatientLoggedIn(db, r.value, f.username, h, requestId))
              && (!LoginBlank(f) && !asPatient && asDoctor ==>
                    r.Ok? && DoctorLoggedIn(db, r.value, f.username, h, requestId))
              && (!LoginBlank(f) && !asPatient && !asDoctor ==>
                    r == Ok(ErrorResponse(requestId, "LOGIN", "Invalid username or password")))
  {
    var form := ReadLoginForm(payload);
    if form.Err? {
      return Err(form.failure);
    }
    var f := form.value;
    if LoginBlank(f) {
      return Ok(ErrorResponse(requestId, "LOGIN", "Missing username or password"));
    }
    var h := Hash(env, f.password);
    if PatientDAO.ValidateLogin(db, f.username, h) {
      r := PatientSession(db, f.username, h, requestId);
    } else if DoctorDAO.ValidateLogin(db, f.username, h) {
      var resp := DoctorSession(db, f.username, h, requestId);
      r := Ok(resp);
    } else {
      r := Ok(ErrorResponse(requestId, "LOGIN", "Invalid username or password"));
    }
  }

  /** The patient branch of LOGIN. The handler dereferences the patient's
      doctor, so an account without one makes it raise. */
  method PatientSession(db: Database, username: string, hash: string, requestId: Option<string>)
    returns (r: Result<Json>)
    requires db.Valid() && PatientDAO.ValidateLogin(db, username, hash)
    ensures r.Err? <==> Doctorless(db, username)
    ensures r.Err? ==> r.failure == Failure(NO_DOCTOR_NPE)
    ensures r.Ok? ==> && IsEnvelope(r.value) && Echoes(r.value, requestId)
                      && PatientLoggedIn(db, r.value, username, hash, requestId)
  {
    LoginFindsPatient(db, username, hash);
    var pid := PatientDAO.GetIdByEmail(db, username);
    var patient := if pid.Some? then PatientDAO.GetPatientById(db, pid.value) else None;
    if patient.None? {
      // "Patient not found after login": the account just validated is stored.
      assert false;
    }
    var p := patient.value;
    if p.doctor.None? {
      return Err(Failure(NO_DOCTOR_NPE));
    }
    var payload := PatientLoginPayload(p, p.doctor.value, username);
    r := Ok(OkResponse(LOGIN, requestId, "Login successful (Patient)", payload));
    assert p == PatientDAO.AsPatient(db, db.patients[pid.value - 1]);
  }

  /** The doctor branch of LOGIN. */
  method DoctorSession(db: Database, username: string, hash: string, requestId: Option<string>)
    returns (r: Json)
    requires db.Valid() && DoctorDAO.ValidateLogin(db, username, hash)
    ensures IsEnvelope(r) && Echoes(r, requestId) && DoctorLoggedIn(db, r, username, hash, requestId)
  {
    LoginFindsDoctor(db, username, hash);
    var did := DoctorDAO.GetIdByEmail(db, username);
    var doctor := if did.Some? then DoctorDAO.GetDoctorById(db, did.value) else None;
    if doctor.None? {
      // "Doctor not found after login": the account just validated is stored.
      assert false;
    }
    var payload := DoctorLoginPayload(doctor.value, username);
    r := OkResponse(LOGIN, requestId, "Login successful (Doctor)", payload);
    assert doctor.value == DoctorDAO.AsDoctor(db.doctors[did.value - 1]);
  }

  /** A patient's login reply names the account by role, session token
      and row id, and names its doctor by id. */
  lemma PatientLoginIdentifies(db: Database, resp: Json, username: string, hash: string,
                               requestId: Option<string>)
    requires db.Valid() && PatientLoggedIn(db, resp, username, hash, requestId)
    ensures Status(resp) == "OK"
    ensures Member(resp, "role") == Some(JStr("PATIENT"))
    ensures Member(resp, "token") == Some(JStr(Token(username)))
    ensures exists i :: && 0 <= i < |db.patients| && db.patients[i].email == username
                        && db.patients[i].doctorId.Some?
                        && Member(resp, "userId") == Some(JNum(i + 1))
                        && Member(resp, "doctor_id") == Some(JNum(db.patients[i].doctorId.value))
  {
    var i :| && 0 <= i < |db.patients| && db.patients[i].email == username
             && db.patients[i].password == hash && db.patients[i].doctorId.Some?
             && var p := PatientDAO.AsPatient(db, db.patients[i]);
                && p.doctor.Some?
                && resp == OkResponse(LOGIN, requestId, "Login successful (Patient)",
                                      PatientLoginPayload(p, p.doctor.value, username));
    var p := PatientDAO.AsPatient(db, db.patients[i]);
    var payload := PatientLoginPayload(p, p.doctor.value, username);
    PatientDAO.StoredPatientIsFound(db, i);
    PatientLoginPayloadHolds(p, p.doctor.value, username);
    assert p.id == i + 1;
    MemberOfOk(LOGIN, requestId, "Login successful (Patient)", payload);
  }

  /** A doctor's login reply names the account by role, session token and
      row id. */
  lemma DoctorLoginIdentifies(db: Database, resp: Json, username: string, hash: string,
                              requestId: Option<string>)
    requires db.Valid() && DoctorLoggedIn(db, resp, username, hash, requestId)
    ensures Status(resp) == "OK"
    ensures Member(resp, "role") == Some(JStr("DOCTOR"))
    ensures Member(resp, "token") == Some(JStr(Token(username)))
    ensures exists i :: && 0 <= i < |db.doctors| && db.doctors[i].email == username
                        && Member(resp, "userId") == Some(JNum(i + 1))
  {
    var i :| && 0 <= i < |db.doctors| && db.doctors[i].email == username
             && db.doctors[i].password == hash
             && resp == OkResponse(LOGIN, requestId, "Login successful (Doctor)",
                                   DoctorLoginPayload(DoctorDAO.AsDoctor(db.doctors[i]), username));
    var payload := DoctorLoginPayload(DoctorDAO.AsDoctor(db.doctors[i]), username);
    DoctorLoginPayloadHolds(DoctorDAO.AsDoctor(db.doctors[i]), username);
    MemberOfOk(LOGIN, requestId, "Login successful (Doctor)", payload);
  }

  /** The payload members of an OK response are those it was built with. */
  lemma MemberOfOk(action: Action, requestId: Option<string>, msg: string, payload: Object)
    ensures forall key :: key in payload ==> Member(OkResponse(action, requestId, msg, payload), key) == Some(payload[key])
  {
  }

  lemma PatientLoginPayloadHolds(p: Patient, d: Doctor, username: string)
    ensures var m := PatientLoginPayload(p, d, username);
            && "role" in m && m["role"] == JStr("PATIENT")
            && "token" in m && m["token"] == JStr(Token(username))
            && "userId" in m && m["userId"] == JNum(p.id)
            && "doctor_id" in m && m["doctor_id"] == JNum(d.id)
  {
  }

  lemma DoctorLoginPayloadHolds(d: Doctor, username: string)
    ensures var m := DoctorLoginPayload(d, username);
            && "role" in m && m["role"] == JStr("DOCTOR")
            && "token" in m && m["token"] == JStr(Token(username))
            && "userId" in m && m["userId"] == JNum(d.id)
  {
  }

  // -------------------------------------------------------- SEND_SYMPTOMS

  predicate SymptomFormInvalid(f: SymptomForm) {
    f.patientId <= 0 || IsBlank(f.description)
  }

  /** `handleSendSymptoms`: stores the description for the patient, stamped
      with the current time; the `hour` sent is not used. */
  method SendSymptoms(db: Database, env: Env, payload: Object, requestId: Option<string>)
    returns (r: Result<Json>)
    requires db.Valid()
    modifies db`symptoms
    ensures db.Valid()
    ensures ReadSymptomForm(payload).Err? ==> r == Err(ReadSymptomForm(payload).failure)
    ensures ReadSymptomForm(payload).Ok? ==> r.Ok?
    ensures r.Ok? ==> IsEnvelope(r.value) && Echoes(r.value, requestId)
    ensures r.Err? ==> db.symptoms == old(db.symptoms)
    ensures ReadSymptomForm(payload).Ok? ==>
              var f := ReadSymptomForm(payload).value;
              && (Status(r.value) == "OK" <==>
                    !SymptomFormInvalid(f) && db.online && db.PatientExists(f.patientId))
              && (Status(r.value) == "OK" ==>
                    && db.symptoms == old(db.symptoms)
                         + [SymptomRow(|old(db.symptoms)| + 1, f.patientId, f.description, env.now)]
                    && r.value == OkResponse(SEND_SYMPTOMS, requestId, "Symptoms stored",
                                             map["symptomsId" := JNum(-1)]))
              && (Status(r.value) != "OK" ==>
                    && db.symptoms == old(db.symptoms)
                    && r.value == ErrorResponse(requestId, "SEND_SYMPTOMS",
                                                if SymptomFormInvalid(f) then "Missing patientId or description"
                                                else "DB error while inserting symptom"))
  {
    var form := ReadSymptomForm(payload);
    if form.Err? {
      return Err(form.failure);
    }
    var f := form.value;
    if SymptomFormInvalid(f) {
      return Ok(ErrorResponse(requestId, "SEND_SYMPTOMS", "Missing patientId or description"));
    }
    var ok := SymptomDAO.InsertSymptom(db, f.patientId, f.description, env.now);
    if !ok {
      return Ok(ErrorResponse(requestId, "SEND_SYMPTOMS", "DB error while inserting symptom"));
    }
    r := Ok(OkResponse(SEND_SYMPTOMS, requestId, "Symptoms stored", map["symptomsId" := JNum(-1)]));
  }

  // ----------------------------------------------------- SEND_MEASUREMENT

  predicate MeasurementFormInvalid(f: MeasurementForm) {
    f.patientId <= 0 || IsBlank(f.kind) || IsBlank(f.date) || |f.values| == 0
  }

  /** The folder of a patient's signal files. */
  function PatientFolder(patientId: int): string {
    "patient_" + IntToString(patientId)
  }

  /** `handleSendMeasurement`: appends one line per sample to today's file
      of the patient's folder, then stores the measurement's metadata with
      that file's path. A sample that is not an `int` raises before anything
      is written; when the metadata INSERT fails the lines stay in the file. */
  method SendMeasurement(db: Database, files: CsvFiles, env: Env, payload: Object, requestId: Option<string>)
    returns (r: Result<Json>)
    requires db.Valid()
    modifies db`measurements, files`files
    ensures db.Valid()
    ensures ReadMeasurementForm(payload).Err? ==> r == Err(ReadMeasurementForm(payload).failure)
    ensures r.Ok? ==> IsEnvelope(r.value) && Echoes(r.value, requestId)
    ensures r.Err? ==> db.measurements == old(db.measurements) && files.files == old(files.files)
    ensures ReadMeasurementForm(payload).Ok? && MeasurementFormInvalid(ReadMeasurementForm(payload).value) ==>
              && r == Ok(ErrorResponse(requestId, "SEND_MEASUREMENT", "Missing patientId/type/date/values"))
              && db.measurements == old(db.measurements) && files.files == old(files.files)
    ensures ReadMeasurementForm(payload).Ok? && !MeasurementFormInvalid(ReadMeasurementForm(payload).value) ==>
              var f := ReadMeasurementForm(payload).value;
              && (ReadInts(f.values).Err? ==> r == Err(ReadInts(f.values).failure))
              && (ReadInts(f.values).Ok? ==>
                    r.Ok? && SentMeasurement(db, files, env, f, ReadInts(f.values).value, requestId, r.value))
  {
    var form := ReadMeasurementForm(payload);
    if form.Err? {
      return Err(form.failure);
    }
    var f := form.value;
    if MeasurementFormInvalid(f) {
      return Ok(ErrorResponse(requestId, "SEND_MEASUREMENT", "Missing patientId/type/date/values"));
    }
    var rows := BuildRows(f.values);
    if rows.Err? {
      return Err(rows.failure);
    }
    var resp := StoreMeasurement(db, files, env, f, ReadInts(f.values).value, rows.value, requestId);
    r := Ok(resp);
  }

  /** The file a patient's samples of today go to. */
  function MeasurementPath(files: CsvFiles, env: Env, patientId: int): string
    reads files`root
  {
    CsvPath(files.root, PatientFolder(patientId), env.today)
  }

  /** SEND_MEASUREMENT once the samples are turned into lines: the file,
      then the metadata. */
  method StoreMeasurement(db: Database, files: CsvFiles, env: Env, f: MeasurementForm, values: seq<Int32>,
                          rows: seq<string>, requestId: Option<string>) returns (resp: Json)
    requires db.Valid() && rows == MeasurementRows(values)
    modifies db`measurements, files`files
    ensures db.Valid()
    ensures IsEnvelope(resp) && Echoes(resp, requestId)
    ensures SentMeasurement(db, files, env, f, values, requestId, resp)
  {
    var filePath := files.AppendRowsToCsv(PatientFolder(f.patientId), rows, env.today);
    if filePath.None? {
      return ErrorResponse(requestId, "SEND_MEASUREMENT", "CSV write failed");
    }
    var path := filePath.value;
    AppendedValuesReadBack(old(files.Lines(path)), values);
    resp := RecordMeasurement(db, f, path, requestId);
  }

  /** The metadata step of SEND_MEASUREMENT, once the file is written. */
  method RecordMeasurement(db: Database, f: MeasurementForm, path: string, requestId: Option<string>)
    returns (resp: Json)
    requires db.Valid()
    modifies db`measurements
    ensures db.Valid()
    ensures IsEnvelope(resp) && Echoes(resp, requestId)
    ensures MeasurementRecorded(db, f, path, requestId, resp)
  {
    var ok := MeasurementDAO.InsertMeta(db, f.patientId, f.kind, f.date, path);
    if !ok {
      return ErrorResponse(requestId, "SEND_MEASUREMENT", "DB insert failed (measurement meta)");
    }
    resp := OkResponse(SEND_MEASUREMENT, requestId, "Measurement stored", map["measurementId" := JNum(-1)]);
  }

  /** What SEND_MEASUREMENT's metadata step leaves behind: the row, stored
      exactly when its INSERT succeeds. */
  twostate predicate MeasurementRecorded(db: Database, f: MeasurementForm, path: string,
                                         requestId: Option<string>, resp: Json)
    reads db
  {
    && (Status(resp) == "OK" <==> db.online && db.PatientExists(f.patientId))
    && (Status(resp) == "OK" ==>
          && db.measurements == old(db.measurements)
               + [MeasurementRow(|old(db.measurements)| + 1, f.patientId, f.kind, f.date, path)]
          && resp == OkResponse(SEND_MEASUREMENT, requestId, "Measurement stored",
                                map["measurementId" := JNum(-1)]))
    && (Status(resp) != "OK" ==>
          && db.measurements == old(db.measurements)
          && resp == ErrorResponse(requestId, "SEND_MEASUREMENT", "DB insert failed (measurement meta)"))
  }

  /** What a SEND_MEASUREMENT whose samples all read as `int` leaves behind:
      nothing when the store cannot be written; otherwise the file holds its
      earlier samples followed by these, and the metadata is recorded. */
  twostate predicate SentMeasurement(db: Database, files: CsvFiles, env: Env, f: MeasurementForm,
                                     values: seq<Int32>, requestId: Option<string>, resp: Json)
    reads db, files
  {
    var path := MeasurementPath(files, env, f.patientId);
    && (!files.writable ==>
          && resp == ErrorResponse(requestId, "SEND_MEASUREMENT", "CSV write failed")
          && db.measurements == old(db.measurements) && files.files == old(files.files))
    && (files.writable ==>
          && files.files == old(files.files)[path := old(files.Lines(path)) + MeasurementRows(values)]
          && ParseValues(files.Lines(path)) == ParseValues(old(files.Lines(path))) + values
          && MeasurementRecorded(db, f, path, requestId, resp))
  }

  // ----------------------------------------------- GET_MEASUREMENT_VALUES

  /** The payload of GET_MEASUREMENT_VALUES. */
  function ValuesPayload(m: MeasurementRow, values: seq<Int32>): Object {
    map["measurementId" := JNum(m.id), "type" := JStr(m.kind), "date" := JStr(m.startedAt),
        "values" := JArr(Map(values, (v: Int32) => JNum(v)))]
  }

  /** `handleGetMeasurementValues`: the measurement's metadata, then the
      samples read back from its file. */
  method GetMeasurementValues(db: Database, files: CsvFiles, payload: Object, requestId: Option<string>)
    returns (r: Result<Json>)
    requires db.Valid()
    ensures GetInt(payload, "measurementId", -1).Err? ==> r == Err(GetInt(payload, "measurementId", -1).failure)
    ensures r.Ok? ==> IsEnvelope(r.value) && Echoes(r.value, requestId)
    ensures GetInt(payload, "measurementId", -1).Ok? ==>
              var id := GetInt(payload, "measurementId", -1).value;
              var m := MeasurementDAO.GetById(db, id);
              && r.Ok?
              && (id <= 0 ==>
                    r.value == ErrorResponse(requestId, "GET_MEASUREMENT_VALUES", "Missing or invalid measurementId."))
              && (id > 0 && m.None? ==>
                    r.value == ErrorResponse(requestId, "GET_MEASUREMENT_VALUES", "Measurement not found."))
              && (id > 0 && m.Some? && files.Load(m.value.filePath).None? ==>
                    r.value == ErrorResponse(requestId, "GET_MEASUREMENT_VALUES", "CSV file not found or empty."))
              && (id > 0 && m.Some? && files.Load(m.value.filePath).Some? ==>
                    r.value == OkResponse(GET_MEASUREMENT_VALUES, requestId, "Values loaded",
                                          ValuesPayload(m.value, ParseValues(files.Lines(m.value.filePath)))))
  {
    var measurementId := GetInt(payload, "measurementId", -1);
    if measurementId.Err? {
      return Err(measurementId.failure);
    }
    var id := measurementId.value;
    if id <= 0 {
      return Ok(ErrorResponse(requestId, "GET_MEASUREMENT_VALUES", "Missing or invalid measurementId."));
    }
    var meta := MeasurementDAO.GetById(db, id);
    if meta.None? {
      return Ok(ErrorResponse(requestId, "GET_MEASUREMENT_VALUES", "Measurement not found."));
    }
    var rows := files.Load(meta.value.filePath);
    if rows.None? {
      return Ok(ErrorResponse(requestId, "GET_MEASUREMENT_VALUES", "CSV file not found or empty."));
    }
    var values := ValuesOf(rows.value);
    r := Ok(OkResponse(GET_MEASUREMENT_VALUES, requestId, "Values loaded", ValuesPayload(meta.value, values)));
  }

  // ------------------------------------------------------------ listings

  /** The loop every listing handler runs: one JSON object per record, in
      the order the DAO returned them. */
  method ToArray<T>(records: seq<T>, item: T -> Json) returns (arr: seq<Json>)
    ensures |arr| == |records|
    ensures forall i :: 0 <= i < |records| ==> arr[i] == item(records[i])
  {
    arr := [];
    var i := 0;
    while i < |records|
      invariant 0 <= i <= |records| && |arr| == i
      invariant forall k :: 0 <= k < i ==> arr[k] == item(records[k])
    {
      arr := arr + [item(records[i])];
      i := i + 1;
    }
  }

  // -------------------------------------------------------- LIST_PATIENTS

  /** One entry of the LIST_PATIENTS answer. */
  function PatientItem(p: Patient): Json {
    var m := map["id" := JNum(p.id), "name" := JStr(p.name), "surname" := JStr(p.surname),
                 "email" := JStr(p.email), "phone" := JStr(p.phone), "dob" := JStr(p.dob)];
    JObj(if p.sex.Some? then m["sex" := JStr(SexName(p.sex.value))] else m)
  }

  /** `handleListPatients`: the doctor's patients, in table order, in the
      answer built outside the envelope. A stored sex that is not a
      constant name makes the DAO, and so the handler, raise. */
  method ListPatients(db: Database, payload: Object, requestId: Option<string>) returns (r: Result<Json>)
    ensures GetInt(payload, "doctorId", -1).Err? ==> r == Err(GetInt(payload, "doctorId", -1).failure)
    ensures r.Ok? ==> Echoes(r.value, requestId) && (IsEnvelope(r.value) || Status(r.value) == "OK")
    ensures GetInt(payload, "doctorId", -1).Ok? ==>
              var id := GetInt(payload, "doctorId", -1).value;
              var listed := DoctorDAO.ListedPatients(DoctorDAO.PatientsOf(db, id));
              && (id <= 0 ==> r == Ok(ErrorResponse(requestId, "LIST_PATIENTS",
                                                    "Missing or invalid userId (doctorId) in request.")))
              && (id > 0 && !db.online ==> r == Ok(PatientListing(requestId, [])))
              && (id > 0 && db.online && listed.Err? ==> r == Err(listed.failure))
              && (id > 0 && db.online && listed.Ok? ==>
                    r == Ok(PatientListing(requestId, Map(listed.value, PatientItem))))
  {
    var doctorId := GetInt(payload, "doctorId", -1);
    if doctorId.Err? {
      return Err(doctorId.failure);
    }
    var id := doctorId.value;
    if id <= 0 {
      return Ok(ErrorResponse(requestId, "LIST_PATIENTS", "Missing or invalid userId (doctorId) in request."));
    }
    var patients := DoctorDAO.GetPatientsByDoctorId(db, id);
    if patients.Err? {
      return Err(patients.failure);
    }
    var arr := ToArray(patients.value, PatientItem);
    assert arr == Map(patients.value, PatientItem);
    r := Ok(PatientListing(requestId, arr));
  }

  // -------------------------------------------------------- LIST_SYMPTOMS

  /** One entry of the LIST_SYMPTOMS answer. */
  function SymptomItem(s: SymptomRow): Json {
    JObj(map["symptomsId" := JNum(s.id), "description" := JStr(s.description), "timestamp" := JStr(s.timestamp)])
  }

  /** `handleListSymptoms`: the patient's symptoms, in table order. */
  method ListSymptoms(db: Database, payload: Object, requestId: Option<string>) returns (r: Result<Json>)
    ensures GetInt(payload, "patientId", -1).Err? ==> r == Err(GetInt(payload, "patientId", -1).failure)
    ensures r.Ok? ==> IsEnvelope(r.value) && Echoes(r.value, requestId)
    ensures GetInt(payload, "patientId", -1).Ok? ==>
              var id := GetInt(payload, "patientId", -1).value;
              var rows := if db.online then SymptomDAO.SymptomsOf(db, id) else [];
              && (id <= 0 ==> r == Ok(ErrorResponse(requestId, "LIST_SYMPTOMS", "Missing or invalid patientId.")))
              && (id > 0 ==> r == Ok(OkResponse(LIST_SYMPTOMS, requestId, "Symptoms retrieved",
                                                map["symptoms" := JArr(Map(rows, SymptomItem))])))
  {
    var patientId := GetInt(payload, "patientId", -1);
    if patientId.Err? {
      return Err(patientId.failure);
    }
    var id := patientId.value;
    if id <= 0 {
      return Ok(ErrorResponse(requestId, "LIST_SYMPTOMS", "Missing or invalid patientId."));
    }
    var symptoms := SymptomDAO.GetSymptomsByPatientId(db, id);
    var arr := ToArray(symptoms, SymptomItem);
    assert arr == Map(symptoms, SymptomItem);
    r := Ok(OkResponse(LIST_SYMPTOMS, requestId, "Symptoms retrieved", map["symptoms" := JArr(arr)]));
  }

  // --------------------------------------------------------- LIST_DOCTORS

  /** One entry of the LIST_DOCTORS answer. */
  function DoctorItem(d: Doctor): Json {
    JObj(map["doctorId" := JNum(d.id), "name" := JStr(d.name), "surname" := JStr(d.surname),
             "email" := JStr(d.email)])
  }

  /** The entry a stored doctor is listed as. */
  function DoctorRowItem(row: DoctorRow): Json {
    DoctorItem(Doctor(row.id, row.name, row.surname, None, row.email))
  }

  /** `handleListDoctors`: every doctor, in table order; no payload is read. */
  method ListDoctors(db: Database, requestId: Option<string>) returns (r: Json)
    ensures IsEnvelope(r) && Echoes(r, requestId)
    ensures r == OkResponse(LIST_DOCTORS, requestId, "Doctors retrieved successfully",
                            map["doctors" := JArr(Map(if db.online then db.doctors else [], DoctorRowItem))])
  {
    var doctors := DoctorDAO.GetAllDoctors(db);
    var arr := ToArray(doctors, DoctorItem);
    assert arr == Map(if db.online then db.doctors else [], DoctorRowItem);
    r := OkResponse(LIST_DOCTORS, requestId, "Doctors retrieved successfully", map["doctors" := JArr(arr)]);
  }

  // ---------------------------------------------------- LIST_MEASUREMENTS

  /** One entry of the LIST_MEASUREMENTS answer. */
  function MeasurementItem(m: MeasurementRow): Json {
    JObj(map["id" := JNum(m.id), "type" := JStr(m.kind), "date" := JStr(m.startedAt),
             "filePath" := JStr(m.filePath)])
  }

  /** `handleListMeasurements`: the patient's measurements, newest first. */
  method ListMeasurements(db: Database, payload: Object, requestId: Option<string>) returns (r: Result<Json>)
    ensures GetInt(payload, "patientId", -1).Err? ==> r == Err(GetInt(payload, "patientId", -1).failure)
    ensures r.Ok? ==> IsEnvelope(r.value) && Echoes(r.value, requestId)
    ensures GetInt(payload, "patientId", -1).Ok? ==>
              var id := GetInt(payload, "patientId", -1).value;
              var rows := if db.online then MeasurementDAO.MeasurementsOf(db, id) else [];
              && (id <= 0 ==> r == Ok(ErrorResponse(requestId, "LIST_MEASUREMENTS", "Missing or invalid patientId.")))
              && (id > 0 ==> r == Ok(OkResponse(LIST_MEASUREMENTS, requestId, "Measurements retrieved",
                                                map["measurements" := JArr(Map(rows, MeasurementItem))])))
  {
    var patientId := GetInt(payload, "patientId", -1);
    if patientId.Err? {
      return Err(patientId.failure);
    }
    var id := patientId.value;
    if id <= 0 {
      return Ok(ErrorResponse(requestId, "LIST_MEASUREMENTS", "Missing or invalid patientId."));
    }
    var measurements := MeasurementDAO.ListByPatientId(db, id);
    var arr := ToArray(measurements, MeasurementItem);
    assert arr == Map(measurements, MeasurementItem);
    r := Ok(OkResponse(LIST_MEASUREMENTS, requestId, "Measurements retrieved", map["measurements" := JArr(arr)]));
  }

  // -------------------------------------------------- REQUEST_APPOINTMENT

  predicate AppointmentFormInvalid(f: AppointmentForm) {
    f.doctorId <= 0 || f.patientId <= 0 || f.datetime.None? || IsBlank(f.datetime.value)
  }

  const SLOT_TAKEN: string := "Appointment slot already taken. Please choose another date or time."

  /** `handleRequestAppointment`: books the slot when it is free. */
  method RequestAppointment(db: Database, payload: Object, requestId: Option<string>) returns (r: Result<Json>)
    requires db.Valid()
    modifies db`appointments
    ensures db.Valid()
    ensures ReadAppointmentForm(payload).Err? ==> r == Err(ReadAppointmentForm(payload).failure)
    ensures r.Ok? ==> IsEnvelope(r.value) && Echoes(r.value, requestId)
    ensures r.Err? ==> db.appointments == old(db.appointments)
    ensures ReadAppointmentForm(payload).Ok? && AppointmentFormInvalid(ReadAppointmentForm(payload).value) ==>
              && r == Ok(ErrorResponse(requestId, "REQUEST_APPOINTMENT",
                                       "Missing or invalid doctorId / patientId / datetime"))
              && db.appointments == old(db.appointments)
    ensures ReadAppointmentForm(payload).Ok? && !AppointmentFormInvalid(ReadAppointmentForm(payload).value) ==>
              var f := ReadAppointmentForm(payload).value;
              r.Ok? && AppointmentBooked(db, f.doctorId, f.patientId, f.datetime.value, f.message, requestId, r.value)
  {
    var form := ReadAppointmentForm(payload);
    if form.Err? {
      return Err(form.failure);
    }
    var f := form.value;
    if AppointmentFormInvalid(f) {
      return Ok(ErrorResponse(requestId, "REQUEST_APPOINTMENT", "Missing or invalid doctorId / patientId / datetime"));
    }
    var resp := BookAppointment(db, f.doctorId, f.patientId, f.datetime.value, f.message, requestId);
    r := Ok(resp);
  }

  /** REQUEST_APPOINTMENT once the form is valid: the slot is checked
      first, and the INSERT still fails on an unknown doctor or patient. */
  method BookAppointment(db: Database, doctorId: int, patientId: int, datetime: string, message: string,
                         requestId: Option<string>) returns (resp: Json)
    requires db.Valid()
    modifies db`appointments
    ensures db.Valid()
    ensures IsEnvelope(resp) && Echoes(resp, requestId)
    ensures AppointmentBooked(db, doctorId, patientId, datetime, message, requestId, resp)
  {
    if AppointmentDAO.IsSlotTaken(db, doctorId, datetime) {
      return ErrorResponse(requestId, "REQUEST_APPOINTMENT", SLOT_TAKEN);
    }
    var appId := AppointmentDAO.Insert(db, doctorId, patientId, datetime, message);
    if appId.None? {
      return ErrorResponse(requestId, "REQUEST_APPOINTMENT", "DB insert failed (appointment)");
    }
    resp := OkResponse(REQUEST_APPOINTMENT, requestId, "Appointment created", map["appointmentId" := JNum(appId.value)]);
  }

  /** What a valid appointment request leaves behind: a slot reported taken
      (or a query that fails) books nothing; otherwise the appointment is
      booked exactly when both parties exist, and its slot is reported
      taken from then on. */
  twostate predicate AppointmentBooked(db: Database, doctorId: int, patientId: int, datetime: string,
                                       message: string, requestId: Option<string>, resp: Json)
    reads db
  {
    && (old(AppointmentDAO.IsSlotTaken(db, doctorId, datetime)) ==>
          && db.appointments == old(db.appointments)
          && resp == ErrorResponse(requestId, "REQUEST_APPOINTMENT", SLOT_TAKEN))
    && (!old(AppointmentDAO.IsSlotTaken(db, doctorId, datetime))
        && !(db.DoctorExists(doctorId) && db.PatientExists(patientId)) ==>
          && db.appointments == old(db.appointments)
          && resp == ErrorResponse(requestId, "REQUEST_APPOINTMENT", "DB insert failed (appointment)"))
    && (!old(AppointmentDAO.IsSlotTaken(db, doctorId, datetime))
        && db.DoctorExists(doctorId) && db.PatientExists(patientId) ==>
          && db.appointments == old(db.appointments)
               + [AppointmentRow(|db.appointments|, doctorId, patientId, datetime, message)]
          && resp == OkResponse(REQUEST_APPOINTMENT, requestId, "Appointment created",
                                map["appointmentId" := JNum(|db.appointments|)])
          && AppointmentDAO.IsSlotTaken(db, doctorId, datetime))
  }

  // ---------------------------------------------------- LIST_APPOINTMENTS

  /** One entry of the LIST_APPOINTMENTS answer. */
  function AppointmentItem(a: AppointmentRow): Json {
    JObj(map["id" := JNum(a.id), "doctorId" := JNum(a.doctorId), "patientId" := JNum(a.patientId),
             "datetime" := JStr(a.datetime), "message" := JStr(a.message)])
  }

  /** The answer to a listing of appointments for one scope. */
  function AppointmentsResponse(requestId: Option<string>, scope: string, rows: seq<AppointmentRow>): Json {
    OkResponse(LIST_APPOINTMENTS, requestId, "Appointments retrieved for " + scope,
               map["appointments" := JArr(Map(rows, AppointmentItem))])
  }

  /** `handleListAppointments`: a doctor's appointments when `doctorId` is
      given (it wins over `patientId`), otherwise a patient's; latest first. */
  method ListAppointments(db: Database, payload: Object, requestId: Option<string>) returns (r: Result<Json>)
    ensures ReadIdPair(payload).Err? ==> r == Err(ReadIdPair(payload).failure)
    ensures r.Ok? ==> IsEnvelope(r.value) && Echoes(r.value, requestId)
    ensures ReadIdPair(payload).Ok? ==>
              var ids := ReadIdPair(payload).value;
              && (ids.doctorId > 0 ==>
                    r == Ok(AppointmentsResponse(requestId, "DOCTOR",
                              if db.online then AppointmentDAO.DoctorAppointments(db, ids.doctorId) else [])))
              && (ids.doctorId <= 0 && ids.patientId > 0 ==>
                    r == Ok(AppointmentsResponse(requestId, "PATIENT",
                              if db.online then AppointmentDAO.PatientAppointments(db, ids.patientId) else [])))
              && (ids.doctorId <= 0 && ids.patientId <= 0 ==>
                    r == Ok(ErrorResponse(requestId, "LIST_APPOINTMENTS",
                                          "You must provide doctorId or patientId in payload")))
  {
    var form := ReadIdPair(payload);
    if form.Err? {
      return Err(form.failure);
    }
    var ids := form.value;
    var appointments: seq<AppointmentRow>;
    var scope: string;
    if ids.doctorId > 0 {
      appointments := AppointmentDAO.ListByDoctor(db, ids.doctorId);
      scope := "DOCTOR";
    } else if ids.patientId > 0 {
      appointments := AppointmentDAO.ListByPatient(db, ids.patientId);
      scope := "PATIENT";
    } else {
      return Ok(ErrorResponse(requestId, "LIST_APPOINTMENTS", "You must provide doctorId or patientId in payload"));
    }
    var arr := ToArray(appointments, AppointmentItem);
    assert arr == Map(appointments, AppointmentItem);
    r := Ok(OkResponse(LIST_APPOINTMENTS, requestId, "Appointments retrieved for " + scope,
                       map["appointments" := JArr(arr)]));
  }

  // --------------------------------------------------------- SEND_MESSAGE

  /** The error SEND_MESSAGE answers a form with, checked in this order. */
  function MessageFormError(f: MessageForm): (e: Option<string>)
    ensures f.doctorId <= 0 || f.patientId <= 0 ==> e == Some("Missing or invalid doctorId / patientId")
    ensures e == Some("senderRole must be 'DOCTOR' or 'PATIENT'") <==>
              f.doctorId > 0 && f.patientId > 0 && f.senderRole !in {Some("DOCTOR"), Some("PATIENT")}
    ensures e == Some("Message text cannot be empty") <==>
              && f.doctorId > 0 && f.patientId > 0 && f.senderRole in {Some("DOCTOR"), Some("PATIENT")}
              && (f.text.None? || IsBlank(f.text.value))
  {
    if f.doctorId <= 0 || f.patientId <= 0 then Some("Missing or invalid doctorId / patientId")
    else if f.senderRole.None? || (f.senderRole.value != "DOCTOR" && f.senderRole.value != "PATIENT")
    then Some("senderRole must be 'DOCTOR' or 'PATIENT'")
    else if f.text.None? || IsBlank(f.text.value) then Some("Message text cannot be empty")
    else None
  }

  /** A form SEND_MESSAGE accepts names both parties, a known role and a
      non-blank text. */
  lemma MessageFormAccepted(f: MessageForm)
    ensures MessageFormError(f).None? <==>
              && f.doctorId > 0 && f.patientId > 0
              && f.senderRole in {Some("DOCTOR"), Some("PATIENT")}
              && f.text.Some? && !IsBlank(f.text.value)
  {
  }

  /** `handleSendMessage`: checks the form, then stores the message. */
  method SendMessage(db: Database, env: Env, payload: Object, requestId: Option<string>) returns (r: Result<Json>)
    requires db.Valid()
    modifies db`messages
    ensures db.Valid()
    ensures ReadMessageForm(payload).Err? ==> r == Err(ReadMessageForm(payload).failure)
    ensures ReadMessageForm(payload).Ok? ==> r.Ok?
    ensures r.Ok? ==> IsEnvelope(r.value) && Echoes(r.value, requestId)
    ensures r.Err? ==> db.messages == old(db.messages)
    ensures ReadMessageForm(payload).Ok? && MessageFormError(ReadMessageForm(payload).value).Some? ==>
              && db.messages == old(db.messages)
              && r.value == ErrorResponse(requestId, "SEND_MESSAGE",
                                          MessageFormError(ReadMessageForm(payload).value).value)
    ensures ReadMessageForm(payload).Ok? && MessageFormError(ReadMessageForm(payload).value).None? ==>
              var f := ReadMessageForm(payload).value;
              MessageSent(db, env, f.doctorId, f.patientId, f.senderRole.value, f.text.value, requestId, r.value)
  {
    var form := ReadMessageForm(payload);
    if form.Err? {
      return Err(form.failure);
    }
    var f := form.value;
    var err := MessageFormError(f);
    if err.Some? {
      return Ok(ErrorResponse(requestId, "SEND_MESSAGE", err.value));
    }
    var resp := StoreMessage(db, env, f.doctorId, f.patientId, f.senderRole.value, f.text.value, requestId);
    r := Ok(resp);
  }

  /** SEND_MESSAGE once the form is accepted: the INSERT, stamped with the
      current time. */
  method StoreMessage(db: Database, env: Env, doctorId: int, patientId: int, senderRole: string, text: string,
                      requestId: Option<string>) returns (resp: Json)
    requires db.Valid()
    modifies db`messages
    ensures db.Valid()
    ensures IsEnvelope(resp) && Echoes(resp, requestId)
    ensures MessageSent(db, env, doctorId, patientId, senderRole, text, requestId, resp)
  {
    var msgId := MessageDAO.Insert(db, doctorId, patientId, senderRole, env.now, text);
    if msgId.None? {
      return ErrorResponse(requestId, "SEND_MESSAGE", "DB insert failed (message)");
    }
    var row := MessageRow(msgId.value, doctorId, patientId, senderRole, env.now, text);
    assert row.id == |db.messages| && db.messages == old(db.messages) + [row];
    assert row in MessageDAO.Conversation(db, doctorId, patientId);
    resp := OkResponse(SEND_MESSAGE, requestId, "Message stored",
                       map["messageId" := JNum(row.id), "timestamp" := JStr(env.now)]);
  }

  /** What an accepted message leaves behind: stored, stamped with the
      current time, in the conversation of its doctor and patient exactly
      when the database is up and both exist; the answer then carries its id
      and its timestamp. */
  twostate predicate MessageSent(db: Database, env: Env, doctorId: int, patientId: int, senderRole: string,
                                 text: string, requestId: Option<string>, resp: Json)
    reads db
  {
    && (!(db.online && db.DoctorExists(doctorId) && db.PatientExists(patientId)) ==>
          && db.messages == old(db.messages)
          && resp == ErrorResponse(requestId, "SEND_MESSAGE", "DB insert failed (message)"))
    && (db.online && db.DoctorExists(doctorId) && db.PatientExists(patientId) ==>
          var row := MessageRow(|db.messages|, doctorId, patientId, senderRole, env.now, text);
          && db.messages == old(db.messages) + [row]
          && row in MessageDAO.Conversation(db, doctorId, patientId)
          && resp == OkResponse(SEND_MESSAGE, requestId, "Message stored",
                                map["messageId" := JNum(row.id), "timestamp" := JStr(env.now)]))
  }

  // -------------------------------------------------------- LIST_MESSAGES

  /** One entry of the LIST_MESSAGES answer. */
  function MessageItem(m: MessageRow): Json {
    JObj(map["messageId" := JNum(m.id), "doctorId" := JNum(m.doctorId), "patientId" := JNum(m.patientId),
             "senderRole" := JStr(m.senderRole), "timestamp" := JStr(m.timestamp), "text" := JStr(m.text)])
  }

  /** `handleListMessages`: the conversation of one doctor and one patient,
      oldest first. */
  method ListMessages(db: Database, payload: Object, requestId: Option<string>) returns (r: Result<Json>)
    ensures ReadIdPair(payload).Err? ==> r == Err(ReadIdPair(payload).failure)
    ensures r.Ok? ==> IsEnvelope(r.value) && Echoes(r.value, requestId)
    ensures ReadIdPair(payload).Ok? ==>
              var ids := ReadIdPair(payload).value;
              var rows := if db.online then MessageDAO.Conversation(db, ids.doctorId, ids.patientId) else [];
              && (ids.doctorId <= 0 || ids.patientId <= 0 ==>
                    r == Ok(ErrorResponse(requestId, "LIST_MESSAGES", "You must provide doctorId and patientId in payload")))
              && (ids.doctorId > 0 && ids.patientId > 0 ==>
                    r == Ok(OkResponse(LIST_MESSAGES, requestId, "Conversation messages retrieved",
                                       map["messages" := JArr(Map(rows, MessageItem))])))
  {
    var form := ReadIdPair(payload);
    if form.Err? {
      return Err(form.failure);
    }
    var ids := form.value;
    if ids.doctorId <= 0 || ids.patientId <= 0 {
      return Ok(ErrorResponse(requestId, "LIST_MESSAGES", "You must provide doctorId and patientId in payload"));
    }
    var msgs := MessageDAO.ListConversation(db, ids.doctorId, ids.patientId);
    var arr := ToArray(msgs, MessageItem);
    assert arr == Map(msgs, MessageItem);
    r := Ok(OkResponse(LIST_MESSAGES, requestId, "Conversation messages retrieved", map["messages" := JArr(arr)]));
  }

  /** Validated patient credentials lead to the one row with that email. */
  lemma LoginFindsPatient(db: Database, email: string, hash: string)
    requires db.Valid() && PatientDAO.ValidateLogin(db, email, hash)
    ensures PatientDAO.GetIdByEmail(db, email).Some?
    ensures var id := PatientDAO.GetIdByEmail(db, email).value;
            && 0 < id <= |db.patients|
            && db.patients[id - 1].email == email && db.patients[id - 1].password == hash
            && PatientDAO.GetPatientById(db, id) == Some(PatientDAO.AsPatient(db, db.patients[id - 1]))
            && (Doctorless(db, email) <==> db.patients[id - 1].doctorId.None?)
            && (PatientDAO.AsPatient(db, db.patients[id - 1]).doctor.Some? <==>
                  db.patients[id - 1].doctorId.Some?)
            && (PatientDAO.AsPatient(db, db.patients[id - 1]).doctor.Some? ==>
                  PatientDAO.AsPatient(db, db.patients[id - 1]).doctor.value.id
                    == db.patients[id - 1].doctorId.value)
  {
    PatientDAO.LoginFindsTheRow(db, email, hash);
    var id := PatientDAO.GetIdByEmail(db, email).value;
    PatientDAO.StoredPatientIsFound(db, id - 1);
    assert forall i :: 0 <= i < |db.patients| && db.patients[i].email == email ==> i == id - 1;
  }

  /** Validated doctor credentials lead to the one row with that email. */
  lemma LoginFindsDoctor(db: Database, email: string, hash: string)
    requires db.Valid() && DoctorDAO.ValidateLogin(db, email, hash)
    ensures DoctorDAO.GetIdByEmail(db, email).Some?
    ensures var id := DoctorDAO.GetIdByEmail(db, email).value;
            && 0 < id <= |db.doctors|
            && db.doctors[id - 1].email == email && db.doctors[id - 1].password == hash
            && DoctorDAO.GetDoctorById(db, id) == Some(DoctorDAO.AsDoctor(db.doctors[id - 1]))
  {
    var k :| 0 <= k < |db.doctors| && db.doctors[k].email == email && db.doctors[k].password == hash;
    DoctorDAO.LookupsFindTheRow(db, k);
  }
}
