/** server/database/PatientDAO.java: the statements on the `patients` table.
    `register`, `validateLogin` and `getIdByEmail` are the ones in that file.
    The router also calls `registerPatient` (the same INSERT with a doctor_id)
    and `getPatientById`, which that file does not contain; they are modelled
    as the statements their names and the router's use of them describe. */
module PatientDAO {
  import opened Common
  import opened Schema
  import opened Pojos
  import DoctorDAO

  /** The INSERT both registrations run; `doctorId` None is a NULL doctor_id.
      It is rejected (SQLException, caught: false) when the connection is
      down, the email is already stored, or the doctor does not exist. */
  method Insert(db: Database, name: string, surname: string, email: string, pwd: string,
                dob: string, sex: string, phone: string, doctorId: Option<int>) returns (ok: bool)
    requires db.Valid()
    modifies db`patients
    ensures db.Valid()
    ensures ok <==> && old(db.online) && !old(db.PatientEmailTaken(email))
                    && (doctorId.Some? ==> db.DoctorExists(doctorId.value))
    ensures ok ==> db.patients == old(db.patients)
                                 + [PatientRow(|old(db.patients)| + 1, name, surname, email, pwd,
                                               dob, sex, phone, doctorId)]
    ensures !ok ==> db.patients == old(db.patients)
    ensures ok ==> ValidateLogin(db, email, pwd) && GetIdByEmail(db, email) == Some(|db.patients|)
  {
    if doctorId.Some? {
      db.DoctorExistsIffInRange(doctorId.value);
    }
    if !db.online || db.PatientEmailTaken(email) || (doctorId.Some? && !db.DoctorExists(doctorId.value)) {
      return false;
    }
    var row := PatientRow(|db.patients| + 1, name, surname, email, pwd, dob, sex, phone, doctorId);
    AppendedRowIsFound(db.patients, row);
    db.patients := db.patients + [row];
    ok := true;
  }

  /** `register`: a patient without a doctor. */
  method Register(db: Database, name: string, surname: string, email: string, pwd: string,
                  dob: string, sex: string, phone: string) returns (ok: bool)
    requires db.Valid()
    modifies db`patients
    ensures db.Valid()
    ensures ok <==> old(db.online) && !old(db.PatientEmailTaken(email))
    ensures ok ==> db.patients == old(db.patients)
                                 + [PatientRow(|old(db.patients)| + 1, name, surname, email, pwd,
                                               dob, sex, phone, None)]
    ensures !ok ==> db.patients == old(db.patients)
  {
    ok := Insert(db, name, surname, email, pwd, dob, sex, phone, None);
  }

  /** `registerPatient`: a patient assigned to the doctor with this id. */
  method RegisterPatient(db: Database, name: string, surname: string, email: string, pwd: string,
                         dob: string, sex: string, phone: string, doctorId: int) returns (ok: bool)
    requires db.Valid()
    modifies db`patients
    ensures db.Valid()
    ensures ok <==> old(db.online) && !old(db.PatientEmailTaken(email)) && db.DoctorExists(doctorId)
    ensures ok ==> db.patients == old(db.patients)
                                 + [PatientRow(|old(db.patients)| + 1, name, surname, email, pwd,
                                               dob, sex, phone, Some(doctorId))]
    ensures !ok ==> db.patients == old(db.patients)
    ensures ok ==> GetIdByEmail(db, email) == Some(|db.patients|)
  {
    ok := Insert(db, name, surname, email, pwd, dob, sex, phone, Some(doctorId));
  }

  lemma AppendedRowIsFound(rows: seq<PatientRow>, row: PatientRow)
    requires forall i :: 0 <= i < |rows| ==> rows[i].email != row.email
    ensures FindFirst(rows + [row], (r: PatientRow) => r.email == row.email) == Some(|rows|)
  {
    var s := rows + [row];
    var p := (r: PatientRow) => r.email == row.email;
    assert p(s[|rows|]);
    assert forall i :: 0 <= i < |rows| ==> !p(s[i]);
  }

  /** `validateLogin`: some row has both this email and this password hash;
      false when the statement fails. */
  predicate ValidateLogin(db: Database, email: string, password: string): (ok: bool)
    reads db
    ensures ok ==> db.online && GetIdByEmail(db, email).Some?
  {
    db.online && exists i :: 0 <= i < |db.patients| && db.patients[i].email == email
                                                   && db.patients[i].password == password
  }

  /** `getIdByEmail`: the id of the row with this email, or null. */
  function GetIdByEmail(db: Database, email: string): (r: Option<int>)
    reads db
    ensures r.None? <==> !db.online || !db.PatientEmailTaken(email)
    ensures r.Some? ==> exists i :: 0 <= i < |db.patients| && db.patients[i].email == email
                                                         && db.patients[i].id == r.value
  {
    if !db.online then None
    else match FindFirst(db.patients, (r: PatientRow) => r.email == email)
      case None => None
      case Some(i) => Some(db.patients[i].id)
  }

  /** A successful login names a stored patient: the id found for the email
      is that of a row holding the email and the password. */
  lemma LoginFindsTheRow(db: Database, email: string, password: string)
    requires db.Valid() && ValidateLogin(db, email, password)
    ensures GetIdByEmail(db, email).Some?
    ensures var id := GetIdByEmail(db, email).value;
            0 < id <= |db.patients| && db.patients[id - 1].email == email
            && db.patients[id - 1].password == password
  {
    var k :| 0 <= k < |db.patients| && db.patients[k].email == email
                                    && db.patients[k].password == password;
    var i :| 0 <= i < |db.patients| && db.patients[i].email == email
                                    && db.patients[i].id == GetIdByEmail(db, email).value;
  }

  /** A stored sex text read with `Sex.valueOf`, null when it names no
      constant. */
  function StoredSex(text: string): (sex: Option<Sex>)
    ensures sex.Some? <==> SexValueOf(text).Ok?
    ensures sex.Some? ==> SexName(sex.value) == text
  {
    match SexValueOf(text) case Ok(s) => Some(s) case Err(_) => None
  }

  /** A row as `getPatientById` returns it: its sex read as a constant and
      its doctor joined in. */
  function AsPatient(db: Database, row: PatientRow): Patient
    reads db
  {
    var doctor := match row.doctorId
                  case None => None
                  case Some(d) => DoctorDAO.GetDoctorById(db, d);
    Patient(row.id, row.name, row.surname, row.email, StoredSex(row.sex), row.phone, row.dob, doctor)
  }

  /** `getPatientById`: the row with this id, or null (also on error). */
  function GetPatientById(db: Database, id: int): (p: Option<Patient>)
    reads db
    ensures p.None? <==> !db.online || !db.PatientExists(id)
    ensures p.Some? ==> exists i :: 0 <= i < |db.patients| && db.patients[i].id == id
                          && p.value == AsPatient(db, db.patients[i])
  {
    if !db.online then None
    else match FindFirst(db.patients, (r: PatientRow) => r.id == id)
      case None => None
      case Some(i) => Some(AsPatient(db, db.patients[i]))
  }

  /** The k-th stored row is found by its id, joined with its doctor, who is
      there exactly when the row names one. */
  lemma StoredPatientIsFound(db: Database, k: nat)
    requires db.Valid() && db.online && k < |db.patients|
    ensures GetPatientById(db, k + 1) == Some(AsPatient(db, db.patients[k]))
    ensures AsPatient(db, db.patients[k]).doctor.Some? <==> db.patients[k].doctorId.Some?
    ensures AsPatient(db, db.patients[k]).doctor.Some? ==>
              AsPatient(db, db.patients[k]).doctor.value.id == db.patients[k].doctorId.value
  {
    var byId := (r: PatientRow) => r.id == k + 1;
    assert byId(db.patients[k]);
    if db.patients[k].doctorId.Some? {
      db.DoctorExistsIffInRange(db.patients[k].doctorId.value);
    }
  }
}
