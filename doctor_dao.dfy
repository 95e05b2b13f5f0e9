/** server/database/DoctorDAO.java: the statements on the `doctors` table
    (and the one query on `patients` by doctor). Each statement raises
    SQLException when the connection is down; the DAO catches it and answers
    false, null or an empty list. A query without ORDER BY is read in table
    (rowid) order, which is how SQLite scans a table without a usable index. */
module DoctorDAO {
  import opened Common
  import opened Schema
  import opened Pojos

  /** `register`: INSERT INTO doctors. True when the row went in; false when
      the statement raised, because the email is already in the table
      (UNIQUE) or the connection is down. */
  method Register(db: Database, name: string, surname: string, email: string, pwd: string,
                  phone: string) returns (ok: bool)
    requires db.Valid()
    modifies db`doctors
    ensures db.Valid()
    ensures ok <==> old(db.online) && !old(db.DoctorEmailTaken(email))
    ensures ok ==> db.doctors == old(db.doctors)
                                + [DoctorRow(|old(db.doctors)| + 1, name, surname, email, pwd, phone)]
    ensures !ok ==> db.doctors == old(db.doctors)
    ensures ok ==> ValidateLogin(db, email, pwd) && GetIdByEmail(db, email) == Some(|db.doctors|)
  {
    if !db.online || db.DoctorEmailTaken(email) {
      return false;
    }
    var row := DoctorRow(|db.doctors| + 1, name, surname, email, pwd, phone);
    AppendedRowIsFound(db.doctors, row);
    db.doctors := db.doctors + [row];
    ok := true;
  }

  /** With no earlier row holding its email, an appended row is the first
      (and only) one the email selects. */
  lemma AppendedRowIsFound(rows: seq<DoctorRow>, row: DoctorRow)
    requires forall i :: 0 <= i < |rows| ==> rows[i].email != row.email
    ensures FindFirst(rows + [row], (r: DoctorRow) => r.email == row.email) == Some(|rows|)
  {
    var s := rows + [row];
    var p := (r: DoctorRow) => r.email == row.email;
    var f := FindFirst(s, p);
    assert p(s[|rows|]);
    assert f.Some?;
    assert forall i :: 0 <= i < |rows| ==> !p(s[i]);
  }

  /** `validateLogin`: some row has both this email and this password hash. */
  predicate ValidateLogin(db: Database, email: string, password: string): (ok: bool)
    reads db
    ensures ok ==> db.online && GetIdByEmail(db, email).Some?
  {
    db.online && exists i :: 0 <= i < |db.doctors| && db.doctors[i].email == email
                                                  && db.doctors[i].password == password
  }

  /** `getIdByEmail`: the id of the row with this email, or null. */
  function GetIdByEmail(db: Database, email: string): (r: Option<int>)
    reads db
    ensures r.None? <==> !db.online || !db.DoctorEmailTaken(email)
    ensures r.Some? ==> exists i :: 0 <= i < |db.doctors| && db.doctors[i].email == email
                                                        && db.doctors[i].id == r.value
  {
    if !db.online then None
    else match FindFirst(db.doctors, (r: DoctorRow) => r.email == email)
      case None => None
      case Some(i) => Some(db.doctors[i].id)
  }

  /** A row as `getDoctorById`/`ByEmail`/`ByName` return it: with its phone. */
  function AsDoctor(row: DoctorRow): Doctor {
    Doctor(row.id, row.name, row.surname, Some(row.phone), row.email)
  }

  /** The first row (in table order) the column test selects, as a Doctor. */
  function FirstDoctor(db: Database, where: DoctorRow -> bool): (d: Option<Doctor>)
    reads db
    ensures d.None? <==> !db.online || forall i :: 0 <= i < |db.doctors| ==> !where(db.doctors[i])
    ensures d.Some? ==> exists i :: 0 <= i < |db.doctors| && where(db.doctors[i])
                                 && d.value == AsDoctor(db.doctors[i])
                                 && forall j :: 0 <= j < i ==> !where(db.doctors[j])
  {
    if !db.online then None
    else match FindFirst(db.doctors, where)
      case None => None
      case Some(i) => Some(AsDoctor(db.doctors[i]))
  }

  /** `getDoctorById`. */
  function GetDoctorById(db: Database, id: int): (d: Option<Doctor>)
    reads db
    ensures d.Some? ==> d.value.id == id && d.value.phone.Some?
    ensures d.None? <==> !db.online || !db.DoctorExists(id)
  {
    FirstDoctor(db, (r: DoctorRow) => r.id == id)
  }

  /** `getDoctorByEmail`. */
  function GetDoctorByEmail(db: Database, email: string): (d: Option<Doctor>)
    reads db
    ensures d.Some? ==> d.value.email == email && d.value.phone.Some? && db.DoctorExists(d.value.id)
    ensures d.None? <==> !db.online || !db.DoctorEmailTaken(email)
  {
    FirstDoctor(db, (r: DoctorRow) => r.email == email)
  }

  /** `getDoctorByName`: names are not unique; the earliest registered wins. */
  function GetDoctorByName(db: Database, name: string): (d: Option<Doctor>)
    reads db
    ensures d.Some? ==> d.value.name == name && d.value.phone.Some? && db.DoctorExists(d.value.id)
    ensures d.None? <==> !db.online || forall i :: 0 <= i < |db.doctors| ==> db.doctors[i].name != name
  {
    FirstDoctor(db, (r: DoctorRow) => r.name == name)
  }

  /** Ids and emails are keys: each finds exactly the row that holds it. */
  lemma LookupsFindTheRow(db: Database, k: nat)
    requires db.Valid() && db.online && k < |db.doctors|
    ensures GetDoctorById(db, db.doctors[k].id) == Some(AsDoctor(db.doctors[k]))
    ensures GetDoctorByEmail(db, db.doctors[k].email) == Some(AsDoctor(db.doctors[k]))
    ensures GetIdByEmail(db, db.doctors[k].email) == Some(db.doctors[k].id)
  {
    var row := db.doctors[k];
    var byId := (r: DoctorRow) => r.id == row.id;
    var byEmail := (r: DoctorRow) => r.email == row.email;
    assert byId(db.doctors[k]) && byEmail(db.doctors[k]);
    var i := FindFirst(db.doctors, byId).value;
    var j := FindFirst(db.doctors, byEmail).value;
  }

  /** A patient row as `getPatientsByDoctorId` builds it: sex through
      `Sex.valueOf`, no doctor. */
  function AsListedPatient(row: PatientRow, sex: Sex): Patient {
    Patient(row.id, row.name, row.surname, row.email, Some(sex), row.phone, row.dob, None)
  }

  /** The patients list built row by row, or the exception of the first row
      whose sex is not a constant name. */
  function ListedPatients(rows: seq<PatientRow>): (r: Result<seq<Patient>>)
    ensures r.Ok? ==> |r.value| == |rows|
  {
    if rows == [] then Ok([])
    else match SexValueOf(rows[0].sex)
      case Err(e) => Err(e)
      case Ok(sex) =>
        match ListedPatients(rows[1..])
        case Err(e) => Err(e)
        case Ok(rest) => Ok([AsListedPatient(rows[0], sex)] + rest)
  }

  /** The list is built exactly when every stored sex names a constant, and
      then holds one patient per row, in row order. */
  lemma {:induction false} ListedPatientsMeaning(rows: seq<PatientRow>)
    ensures ListedPatients(rows).Ok? <==> forall i :: 0 <= i < |rows| ==> SexValueOf(rows[i].sex).Ok?
    ensures ListedPatients(rows).Ok? ==>
              var r := ListedPatients(rows).value;
              |r| == |rows| && forall i :: 0 <= i < |rows| ==>
                r[i] == AsListedPatient(rows[i], SexValueOf(rows[i].sex).value)
    ensures ListedPatients(rows).Err? ==>
              exists i :: && 0 <= i < |rows| && SexValueOf(rows[i].sex) == Err(ListedPatients(rows).failure)
                          && forall j :: 0 <= j < i ==> SexValueOf(rows[j].sex).Ok?
  {
    if rows != [] {
      ListedPatientsMeaning(rows[1..]);
      assert forall i :: 1 <= i < |rows| ==> rows[i] == rows[1..][i - 1];
    }
  }

  /** The rows `WHERE doctor_id = ?`; a NULL doctor_id never matches. */
  function PatientsOf(db: Database, doctorId: int): seq<PatientRow>
    reads db
  {
    Filter(db.patients, (p: PatientRow) => p.doctorId == Some(doctorId))
  }

  /** `getPatientsByDoctorId`: the patients whose doctor_id is this id, in
      table order. A stored sex that `Sex.valueOf` rejects raises
      IllegalArgumentException, which the DAO does not catch. */
  method GetPatientsByDoctorId(db: Database, doctorId: int) returns (r: Result<seq<Patient>>)
    ensures !db.online ==> r == Ok([])
    ensures db.online ==> r == ListedPatients(PatientsOf(db, doctorId))
  {
    if !db.online {
      return Ok([]);
    }
    var rows := PatientsOf(db, doctorId);
    var patients: seq<Patient> := [];
    assert rows[0..] == rows;
    if ListedPatients(rows).Ok? {
      assert [] + ListedPatients(rows).value == ListedPatients(rows).value;
    }
    var i := 0;
    while i < |rows|
      invariant 0 <= i <= |rows|
      invariant ListedPatients(rows) == match ListedPatients(rows[i..])
                                        case Ok(rest) => Ok(patients + rest)
                                        case Err(e) => Err(e)
    {
      assert rows[i..][1..] == rows[i + 1..];
      var sex :- SexValueOf(rows[i].sex);
      var patient := AsListedPatient(rows[i], sex);
      if ListedPatients(rows[i + 1..]).Ok? {
        var rest := ListedPatients(rows[i + 1..]).value;
        assert patients + ([patient] + rest) == (patients + [patient]) + rest;
      }
      patients := patients + [patient];
      i := i + 1;
    }
    assert rows[i..] == [] && patients + [] == patients;
    return Ok(patients);
  }

  /** `getAllDoctors`: every row in table order, id, name, surname and email
      only; the phone is left null and the password is never read. */
  method GetAllDoctors(db: Database) returns (r: seq<Doctor>)
    ensures !db.online ==> r == []
    ensures db.online ==> |r| == |db.doctors|
    ensures db.online ==> forall i :: 0 <= i < |r| ==>
              r[i] == Doctor(db.doctors[i].id, db.doctors[i].name, db.doctors[i].surname, None,
                             db.doctors[i].email)
  {
    r := [];
    if !db.online {
      return;
    }
    var i := 0;
    while i < |db.doctors|
      invariant 0 <= i <= |db.doctors| && |r| == i
      invariant forall k :: 0 <= k < i ==>
                  r[k] == Doctor(db.doctors[k].id, db.doctors[k].name, db.doctors[k].surname, None,
                                 db.doctors[k].email)
    {
      var row := db.doctors[i];
      r := r + [Doctor(row.id, row.name, row.surname, None, row.email)];
      i := i + 1;
    }
  }
}
