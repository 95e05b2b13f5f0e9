/** The payload members each handler of server/Protocol.java reads, in the
    order it reads them, with the defaults it supplies. Reading stops at
    the first member the Gson accessor rejects; that exception leaves the
    handler. */
module Requests {
  import opened Common
  import opened Json

  /** A member `getString` reads without raising: absent, null or a string. */
  predicate TextMember(p: Object, key: string) {
    key !in p || p[key].JNull? || p[key].JStr?
  }

  /** A member `getInt` reads without raising: absent, null or a number. */
  predicate IntMember(p: Object, key: string) {
    key !in p || p[key].JNull? || p[key].JNum?
  }

  /** `v` is what a text member reads as: the default when absent or null,
      the string itself when it is one. */
  predicate ReadsText(p: Object, key: string, def: string, v: string) {
    && (key !in p || p[key].JNull? ==> v == def)
    && (key in p && p[key].JStr? ==> v == p[key].s)
  }

  /** `v` is what an optional text member reads as: null when absent or
      null, the string itself when it is one. */
  predicate ReadsOptional(p: Object, key: string, v: Option<string>) {
    && (key !in p || p[key].JNull? ==> v == None)
    && (key in p && p[key].JStr? ==> v == Some(p[key].s))
  }

  /** `v` is what an int member reads as: the default when absent or null,
      the number's low 32 bits when it is one. */
  predicate ReadsInt(p: Object, key: string, def: Int32, v: Int32) {
    && (key !in p || p[key].JNull? ==> v == def)
    && (key in p && p[key].JNum? ==> v == Wrap32(p[key].n))
  }

  /** REGISTER_PATIENT: the patient's fields and the three ways of naming
      the doctor. */
  datatype PatientForm = PatientForm(name: string, surname: string, email: string, password: string,
                                     dob: string, sex: string, phone: string,
                                     doctorId: Int32, doctorEmail: string, doctorName: string)

  /** `doctorId` is read without the null check of `getInt`: a JSON null
      there raises. */
  function ReadPatientForm(p: Object): (r: Result<PatientForm>)
    ensures (&& TextMember(p, "name") && TextMember(p, "surname") && TextMember(p, "email")
            && TextMember(p, "password") && TextMember(p, "dob") && TextMember(p, "sex")
            && TextMember(p, "phone") && ("doctorId" !in p || p["doctorId"].JNum?)
            && TextMember(p, "doctorEmail") && TextMember(p, "doctorName")) ==> r.Ok?
    ensures "doctorId" in p && p["doctorId"].JNull? ==> r.Err?
    ensures r.Ok? ==> var f := r.value;
              && ReadsText(p, "name", "", f.name) && ReadsText(p, "surname", "", f.surname)
              && ReadsText(p, "email", "", f.email) && ReadsText(p, "password", "", f.password)
              && ReadsText(p, "dob", "", f.dob) && ReadsText(p, "sex", "", f.sex)
              && ReadsText(p, "phone", "", f.phone) && ReadsInt(p, "doctorId", -1, f.doctorId)
              && ReadsText(p, "doctorEmail", "", f.doctorEmail) && ReadsText(p, "doctorName", "", f.doctorName)
  {
    var name :- GetText(p, "name", "");
    var surname :- GetText(p, "surname", "");
    var email :- GetText(p, "email", "");
    var password :- GetText(p, "password", "");
    var dob :- GetText(p, "dob", "");
    var sex :- GetText(p, "sex", "");
    var phone :- GetText(p, "phone", "");
    var doctorId :- if "doctorId" in p then GetAsInt(p["doctorId"]) else Ok(-1);
    var doctorEmail :- GetText(p, "doctorEmail", "");
    var doctorName :- GetText(p, "doctorName", "");
    Ok(PatientForm(name, surname, email, password, dob, sex, phone, doctorId, doctorEmail, doctorName))
  }

  /** REGISTER_DOCTOR. */
  datatype DoctorForm = DoctorForm(name: string, surname: string, email: string, password: string,
                                   phone: string)

  function ReadDoctorForm(p: Object): (r: Result<DoctorForm>)
    ensures (&& TextMember(p, "name") && TextMember(p, "surname") && TextMember(p, "email")
            && TextMember(p, "password") && TextMember(p, "phone")) ==> r.Ok?
    ensures r.Ok? ==> var f := r.value;
              && ReadsText(p, "name", "", f.name) && ReadsText(p, "surname", "", f.surname)
              && ReadsText(p, "email", "", f.email) && ReadsText(p, "password", "", f.password)
              && ReadsText(p, "phone", "", f.phone)
  {
    var name :- GetText(p, "name", "");
    var surname :- GetText(p, "surname", "");
    var email :- GetText(p, "email", "");
    var password :- GetText(p, "password", "");
    var phone :- GetText(p, "phone", "");
    Ok(DoctorForm(name, surname, email, password, phone))
  }

  /** LOGIN: the username is the account's email. */
  datatype LoginForm = LoginForm(username: string, password: string)

  function ReadLoginForm(p: Object): (r: Result<LoginForm>)
    ensures TextMember(p, "username") && TextMember(p, "password") ==> r.Ok?
    ensures r.Ok? ==> ReadsText(p, "username", "", r.value.username)
                      && ReadsText(p, "password", "", r.value.password)
  {
    var username :- GetText(p, "username", "");
    var password :- GetText(p, "password", "");
    Ok(LoginForm(username, password))
  }

  /** SEND_SYMPTOMS: `hour` is read but only checked loosely and then
      ignored. */
  datatype SymptomForm = SymptomForm(patientId: Int32, description: string, hour: string)

  function ReadSymptomForm(p: Object): (r: Result<SymptomForm>)
    ensures IntMember(p, "patientId") && TextMember(p, "description") && TextMember(p, "hour") ==> r.Ok?
    ensures r.Ok? ==> && ReadsInt(p, "patientId", -1, r.value.patientId)
                      && ReadsText(p, "description", "", r.value.description)
                      && ReadsText(p, "hour", "", r.value.hour)
  {
    var patientId :- GetInt(p, "patientId", -1);
    var description :- GetText(p, "description", "");
    var hour :- GetText(p, "hour", "");
    Ok(SymptomForm(patientId, description, hour))
  }

  /** SEND_MEASUREMENT: the samples are whatever `values` holds when it is
      an array, and no samples otherwise. */
  datatype MeasurementForm = MeasurementForm(patientId: Int32, kind: string, date: string,
                                             values: seq<Json>)

  function ReadMeasurementForm(p: Object): (r: Result<MeasurementForm>)
    ensures IntMember(p, "patientId") && TextMember(p, "type") && TextMember(p, "date") ==> r.Ok?
    ensures r.Ok? ==> && ReadsInt(p, "patientId", -1, r.value.patientId)
                      && ReadsText(p, "type", "", r.value.kind) && ReadsText(p, "date", "", r.value.date)
                      && ("values" in p && p["values"].JArr? ==> r.value.values == p["values"].items)
                      && (("values" !in p || !p["values"].JArr?) ==> r.value.values == [])
  {
    var patientId :- GetInt(p, "patientId", -1);
    var kind :- GetText(p, "type", "");
    var date :- GetText(p, "date", "");
    var values := if "values" in p && p["values"].JArr? then p["values"].items else [];
    Ok(MeasurementForm(patientId, kind, date, values))
  }

  /** REQUEST_APPOINTMENT: `datetime` defaults to null. */
  datatype AppointmentForm = AppointmentForm(doctorId: Int32, patientId: Int32,
                                             datetime: Option<string>, message: string)

  function ReadAppointmentForm(p: Object): (r: Result<AppointmentForm>)
    ensures (&& IntMember(p, "doctorId") && IntMember(p, "patientId") && TextMember(p, "datetime")
            && TextMember(p, "message")) ==> r.Ok?
    ensures r.Ok? ==> && ReadsInt(p, "doctorId", -1, r.value.doctorId)
                      && ReadsInt(p, "patientId", -1, r.value.patientId)
                      && ReadsOptional(p, "datetime", r.value.datetime)
                      && ReadsText(p, "message", "", r.value.message)
  {
    var doctorId :- GetInt(p, "doctorId", -1);
    var patientId :- GetInt(p, "patientId", -1);
    var datetime :- GetString(p, "datetime", None);
    var message :- GetText(p, "message", "");
    Ok(AppointmentForm(doctorId, patientId, datetime, message))
  }

  /** SEND_MESSAGE: `senderRole` and `text` default to null. */
  datatype MessageForm = MessageForm(doctorId: Int32, patientId: Int32,
                                     senderRole: Option<string>, text: Option<string>)

  function ReadMessageForm(p: Object): (r: Result<MessageForm>)
    ensures (&& IntMember(p, "doctorId") && IntMember(p, "patientId") && TextMember(p, "senderRole")
            && TextMember(p, "text")) ==> r.Ok?
    ensures r.Ok? ==> && ReadsInt(p, "doctorId", -1, r.value.doctorId)
                      && ReadsInt(p, "patientId", -1, r.value.patientId)
                      && ReadsOptional(p, "senderRole", r.value.senderRole)
                      && ReadsOptional(p, "text", r.value.text)
  {
    var doctorId :- GetInt(p, "doctorId", -1);
    var patientId :- GetInt(p, "patientId", -1);
    var senderRole :- GetString(p, "senderRole", None);
    var text :- GetString(p, "text", None);
    Ok(MessageForm(doctorId, patientId, senderRole, text))
  }

  /** LIST_APPOINTMENTS and LIST_MESSAGES: a doctor id and a patient id. */
  datatype IdPair = IdPair(doctorId: Int32, patientId: Int32)

  function ReadIdPair(p: Object): (r: Result<IdPair>)
    ensures IntMember(p, "doctorId") && IntMember(p, "patientId") ==> r.Ok?
    ensures r.Ok? ==> ReadsInt(p, "doctorId", -1, r.value.doctorId)
                      && ReadsInt(p, "patientId", -1, r.value.patientId)
  {
    var doctorId :- GetInt(p, "doctorId", -1);
    var patientId :- GetInt(p, "patientId", -1);
    Ok(IdPair(doctorId, patientId))
  }
}
