# Telemedicine server core in Dafny

This project models the core of a telemedicine server. Patients and doctors
register and log in. Patients send symptoms and signal measurements, and
book appointments. Doctors list their patients. Patients and doctors
exchange messages.

The server reads one JSON request per line. Its router, `Protocol.process`,
turns each request into exactly one JSON response. The model covers four
parts:

- **The router.** This is `Protocol.process` and its fourteen handlers,
  modelled in `protocol.dfy`.
  - A request is modelled as the value Gson produces for the line (`Inbound`).
  - A response is modelled as a JSON value (`Json.Json`).
  - The helpers around them live in `envelope.dfy` (the envelope, the
    action names and `getPayload`), `json.dfy` (`getAsString`, `getAsInt`,
    and the router's `getString` and `getInt`) and `requests.dfy` (the
    payload members each handler reads).
  - The measurement samples go to and come back from the signal files as
    CSV lines `k,v,-`. `measurement_csv.dfy` models that write and read.
- **The SQLite database and its DAOs.** `schema.dfy` models each table as a
  sequence of rows in a `Database` object.
  - An AUTOINCREMENT id equals the row's position plus one.
  - The object's invariant holds the UNIQUE constraints on the emails and on
    `(doctor_id, datetime)`, and the foreign keys.
  - The `online` flag stands for a connection whose statements all raise
    `SQLException`.
  - Each DAO (`doctor_dao.dfy`, `patient_dao.dfy`, `appointment_dao.dfy`,
    `message_dao.dfy`, `measurement_dao.dfy`, `symptom_dao.dfy`) states its
    statements over those tables.
  - `ordering.dfy` gives the meaning of `ORDER BY <text>, id`.
- **The in-memory store** of `server/DataStorage.java`. This is the class
  `DataStorage.InMemoryStore`: its counters, maps and lists are fields, and
  its methods update them in place. `store_records.dfy` holds the invariant
  the maps keep.
- **Password hashing.** `encryption.dfy` models `bytesToHex` as a loop
  proved against a specification of the encoding. `encryptPassword` is
  modelled as the hex text of a key produced by an uninterpreted PBKDF2
  function.

The file store behind `DataStorage.appendRowsToCsv` and
`DataStorage.loadCsvAsJson` is not in `server/DataStorage.java`.
`csv_store.dfy` models it as a class that maps each path to its data lines.

Several operations the router calls have no source text:
- `PatientDAO.registerPatient` and `PatientDAO.getPatientById`;
- `MeasurementDAO.getById` and `MeasurementDAO.listByPatientId`;
- `SymptomDAO.getSymptomsByPatientId`.

Each is modelled as the plain SQL statement its name and its use in the
router describe.

The current time, today's date and PBKDF2 come from outside the server.
The model takes them as the `Protocol.Env` parameter.

## Model

| member | source | states |
|---|---|---|
| Protocol.Process | src/main/java/server/Protocol.java:23-88 | Every request gets exactly one response, and nothing escapes. The response is an envelope; the one exception is the LIST_PATIENTS listing, which has status OK. A blank line gives `Empty message` and a malformed line gives `Invalid JSON: <detail>`, both under action UNKNOWN with no request id. A missing action gives `Missing 'action' field` and an unknown one gives `Unknown action: <a>` with that action. A thrown exception gives `Internal error: ...` with no request id. A dispatched request's response echoes its request id. A request that does not write leaves the database and the files unchanged. |
| Protocol.Dispatch | src/main/java/server/Protocol.java:47-79 | Runs the named handler on the payload. An OK result echoes the request id and is an envelope, except for the LIST_PATIENTS listing. Read-only actions change nothing. |
| Protocol.DispatchRegistration | src/main/java/server/Protocol.java:49-52 | The two registrations keep the database valid. Their OK results are envelopes that echo the request id. |
| Protocol.DispatchWrite | src/main/java/server/Protocol.java:55-58 | SEND_SYMPTOMS, SEND_MEASUREMENT, REQUEST_APPOINTMENT and SEND_MESSAGE keep the database valid. Their OK results are envelopes that echo the request id. |
| Protocol.DispatchRead | src/main/java/server/Protocol.java:53-76 | The eight reading actions change nothing. Their OK results echo the request id and are envelopes, except for the LIST_PATIENTS listing. |
| Protocol.InternalError | src/main/java/server/Protocol.java:81-87 | The answer to an escaped exception is an ERROR under UNKNOWN with no request id. |
| Protocol.ReadOptional | src/main/java/server/Protocol.java:38-40 | `action` and `requestId` are null when absent. When present they are their `getAsString` text, and that read may raise. |
| Envelope.ParseAction | src/main/java/server/Protocol.java:47-79 | Recognises exactly the fourteen action names, case-sensitively. |
| Envelope.GetPayload | src/main/java/server/Protocol.java:768-772 | The `payload` member when it is an object, and an empty object otherwise. |
| Requests.ReadPatientForm | src/main/java/server/Protocol.java:96-107 | The ten members read as sent, or their defaults when absent or null. A doctorId that is null raises, as it is read without the null check. Plain strings and numbers always read. |
| Requests.ReadDoctorForm | src/main/java/server/Protocol.java:178-183 | The five members read as sent or as "" when absent or null. Plain strings always read. |
| Requests.ReadLoginForm | src/main/java/server/Protocol.java:233-234 | username and password read as sent or as "". Plain strings always read. |
| Requests.ReadSymptomForm | src/main/java/server/Protocol.java:320-322 | patientId defaults to -1, description and hour to "". Plain members always read. |
| Requests.ReadMeasurementForm | src/main/java/server/Protocol.java:348-352 | patientId, type and date as sent or defaulted. values is the array when it is one, and empty otherwise. |
| Requests.ReadAppointmentForm | src/main/java/server/Protocol.java:591-594 | Both ids default to -1, datetime to null and message to "". Plain members always read. |
| Requests.ReadMessageForm | src/main/java/server/Protocol.java:682-685 | Both ids default to -1, and senderRole and text to null. Plain members always read. |
| Requests.ReadIdPair | src/main/java/server/Protocol.java:632-633 | doctorId and patientId as sent, or -1 when absent or null. Numbers always read. |
| Envelope.PutText | src/main/java/server/Protocol.java:775-783 | A null string member is not written. |
| Envelope.ErrorResponse | src/main/java/server/Protocol.java:786-790 | An envelope with type RESPONSE, status ERROR, the given action and message, and an empty payload. The request id is present exactly when it is non-null. |
| Envelope.OkResponse | src/main/java/server/Protocol.java:775-783 | An envelope with status OK, the action's name, the message and the handler's payload. It echoes the request id. |
| Envelope.PatientListing | src/main/java/server/Protocol.java:469-475 | The LIST_PATIENTS answer is not an envelope. It has status OK, echoes the request id and carries a top-level `patients` array. |
| Json.GetAsString | src/main/java/server/Protocol.java:38-40 | Strings give their text and numbers give their decimal text. Null and objects raise. |
| Json.GetAsInt | src/main/java/server/Protocol.java:803-805 | A number is narrowed to its low 32 bits. A string is read with `parseInt`. Null, booleans and objects raise. |
| Json.GetString | src/main/java/server/Protocol.java:800-801 | The default when the key is absent or JSON null. Otherwise the member's `getAsString`. |
| Json.GetText | src/main/java/server/Protocol.java:800-801 | `getString` with a non-null default never yields null. |
| Json.GetInt | src/main/java/server/Protocol.java:803-805 | The default when the key is absent or JSON null. Otherwise the member's `getAsInt`. |
| Json.GetIntReadsDigits | src/main/java/server/Protocol.java:803-805 | An `int` sent as a number or as its decimal text is read back as itself. |
| Protocol.ResolveDoctor | src/main/java/server/Protocol.java:116-133 | The doctor is looked up by id when it is positive, then by email, then by name. Each step runs only if the previous one found nothing and its field is given. The result is none exactly when no step finds a doctor or the database is down. A result is always an existing doctor. |
| Protocol.RegisterPatient | src/main/java/server/Protocol.java:93-170 | Blank name, surname, email or password gives `Missing required fields` before any lookup. An unresolved doctor gives `Doctor not found` and nothing is inserted. Otherwise the request ends as `PatientRegistered` states for the resolved doctor. |
| Protocol.AddPatient | src/main/java/server/Protocol.java:135-169 | The row with the PBKDF2 hash and the resolved doctor is appended with the next id exactly when the database is up and the email is free. The OK payload is the patient read back together with the doctor's id. A rejected insert gives the failure message and leaves the table unchanged. |
| Protocol.RegisterDoctor | src/main/java/server/Protocol.java:174-224 | Blank required fields give `Missing required fields` and store nothing. Otherwise the request ends as `DoctorRegistered` states. |
| Protocol.AddDoctor | src/main/java/server/Protocol.java:190-223 | The doctor row with the hashed password is appended with the next id exactly when the database is up and the email is free. The OK payload is that id and the doctor read back. A rejected insert gives the failure message and leaves the table unchanged. |
| Protocol.Login | src/main/java/server/Protocol.java:231-314 | Blank credentials give an error. The patient credentials are tried first and the doctor credentials only then. A patient login raises exactly when the account has no doctor. Otherwise OK is the whole reply of the stored patient or doctor row with that email and hash: message "Login successful (Patient)" or "(Doctor)" and the flattened profile as payload. When neither matches, the one message is `Invalid username or password`. |
| Protocol.PatientSession | src/main/java/server/Protocol.java:243-279 | The patient branch raises exactly when the account has no doctor. Otherwise the reply is exactly "Login successful (Patient)" with userId, role PATIENT, token, name, surname, email, dob, phone, sex when it names a constant, and the doctor's id, name, surname, email and phone. |
| Protocol.DoctorSession | src/main/java/server/Protocol.java:282-310 | The reply is exactly "Login successful (Doctor)" with userId, role DOCTOR, token, name, surname, email and phone of the stored doctor row. |
| Protocol.PatientLoginIdentifies | src/main/java/server/Protocol.java:253-266 | A patient login reply is OK and carries role PATIENT, the token `session-<username>`, the row's id as userId and its doctor's id as doctor_id. |
| Protocol.DoctorLoginIdentifies | src/main/java/server/Protocol.java:296-299 | A doctor login reply is OK and carries role DOCTOR, the token and the row's id as userId. |
| Protocol.LoginFindsPatient | src/main/java/server/Protocol.java:243-247 | Validated patient credentials lead, through `getIdByEmail`, to the one row that has both that email and that hash. |
| Protocol.LoginFindsDoctor | src/main/java/server/Protocol.java:282-286 | The same for doctors. |
| Protocol.SendSymptoms | src/main/java/server/Protocol.java:318-343 | A non-positive patient id or a blank description gives an error. Otherwise the symptom is stored, stamped with the current time, exactly when the database is up and the patient exists. The OK payload has `symptomsId` -1. Otherwise the answer is `DB error while inserting symptom` and the table is unchanged. |
| Protocol.SendMeasurement | src/main/java/server/Protocol.java:346-383 | An invalid form gives `Missing patientId/type/date/values` and writes nothing. A sample that is not an `int` raises before anything is written. Otherwise the request ends as `SentMeasurement` states. |
| Protocol.StoreMeasurement | src/main/java/server/Protocol.java:359-376 | The file is written, then the metadata. The result satisfies `SentMeasurement`: an unwritable store gives `CSV write failed` and changes nothing. Otherwise today's file of the patient gains the sample lines, and reading it back gives the earlier samples followed by these. Then the metadata row goes in as `RecordMeasurement` states. |
| Protocol.RecordMeasurement | src/main/java/server/Protocol.java:373-382 | The metadata row with the file path is appended exactly when the database is up and the patient exists. Its answer has `measurementId` -1. Otherwise the answer is `DB insert failed (measurement meta)`. |
| Protocol.GetMeasurementValues | src/main/java/server/Protocol.java:386-435 | A non-positive id gives `Missing or invalid measurementId.`, an unknown one `Measurement not found.`, and a missing file `CSV file not found or empty.`. Otherwise the answer is `Values loaded` with the metadata and the samples parsed from the file's lines. |
| Protocol.ToArray | src/main/java/server/Protocol.java:560-569 | The listing loop: one JSON item per record, in the DAO's order. |
| Protocol.ListPatients | src/main/java/server/Protocol.java:439-476 | A non-positive doctor id gives an error. Otherwise the answer lists exactly the doctor's patients in table order; the list is empty when the database is down. A stored sex that names no constant raises. |
| Protocol.ListSymptoms | src/main/java/server/Protocol.java:480-506 | A non-positive patient id gives an error. Otherwise the answer lists exactly the patient's symptoms in table order. |
| Protocol.ListDoctors | src/main/java/server/Protocol.java:513-543 | Every doctor, in table order, without a phone. |
| Protocol.ListMeasurements | src/main/java/server/Protocol.java:546-575 | A non-positive patient id gives an error. Otherwise the answer lists exactly the patient's measurements, newest first by started_at then id. |
| Protocol.RequestAppointment | src/main/java/server/Protocol.java:588-620 | Non-positive ids or a null or blank datetime give an error and insert nothing. Otherwise the request ends as `AppointmentBooked` states. |
| Protocol.BookAppointment | src/main/java/server/Protocol.java:602-619 | A taken slot gives the slot-taken message and no insert. Otherwise the appointment is stored exactly when the doctor and the patient exist, and its id is returned. After that the slot reports taken. A rejected insert gives `DB insert failed (appointment)`. |
| Protocol.ListAppointments | src/main/java/server/Protocol.java:629-667 | A positive doctor id wins and gives scope DOCTOR over the doctor's appointments. Otherwise a positive patient id gives scope PATIENT. Otherwise the answer is an error. Appointments are latest first. |
| Protocol.MessageFormAccepted | src/main/java/server/Protocol.java:679-699 | SEND_MESSAGE accepts a form exactly when both ids are positive, the role is DOCTOR or PATIENT, and the text is non-blank. |
| Protocol.MessageFormError | src/main/java/server/Protocol.java:686-698 | The id message exactly when an id is not positive; the role message exactly when the ids are fine and the role is neither DOCTOR nor PATIENT; the text message exactly when only the text is null or blank. |
| Protocol.SendMessage | src/main/java/server/Protocol.java:679-714 | A rejected form gives its message. Otherwise the message is stored with the current time in the doctor–patient conversation exactly when both exist. The OK payload carries the new id and the timestamp. |
| Protocol.StoreMessage | src/main/java/server/Protocol.java:700-713 | The message is appended, stamped with the current time, exactly when the database is up and both the doctor and the patient exist. It then belongs to their conversation. The OK payload carries the new id and the timestamp. A rejected insert gives `DB insert failed (message)` and leaves the table unchanged. |
| Protocol.ListMessages | src/main/java/server/Protocol.java:724-762 | Missing ids give an error. Otherwise the answer is the conversation, oldest first. |
| MeasurementCsv.MeasurementRows | src/main/java/server/Protocol.java:359-363 | One line `k,v,-` per sample, in index order. |
| MeasurementCsv.ReadInts | src/main/java/server/Protocol.java:359-363 | The samples read with `getAsInt`, one per element. |
| MeasurementCsv.ReadIntsMeaning | src/main/java/server/Protocol.java:359-363 | The samples are read exactly when every element reads as an `int`, and each is that element's value. |
| MeasurementCsv.BuildRows | src/main/java/server/Protocol.java:359-363 | The loop yields the lines of the samples, or the first element's exception. |
| MeasurementCsv.FailureSpreads | src/main/java/server/Protocol.java:359-363 | The first failing element decides the exception of the whole array. |
| MeasurementCsv.ValuesOf | src/main/java/server/Protocol.java:411-423 | The parse loop takes column 2 of each line, trimmed and read with `parseInt`. Lines with fewer than two fields or a non-integer are skipped. |
| MeasurementCsv.FieldsAfter | src/main/java/server/Protocol.java:414 | Splitting at a comma after a comma-free piece yields that piece first. |
| MeasurementCsv.IntTextIsPlain | src/main/java/server/Protocol.java:361 | A printed `int` contains no comma and nothing `trim` removes. |
| MeasurementCsv.ReadValueRow | src/main/java/server/Protocol.java:359-423 | A written line reads back as its sample. |
| MeasurementCsv.ReadingsAppend | src/main/java/server/Protocol.java:411-423 | Reading a file reads its parts one after the other. |
| MeasurementCsv.ReadingsOfReadable | src/main/java/server/Protocol.java:411-423 | Lines that each carry one value read back as exactly those values, in line order. |
| MeasurementCsv.RowFields | src/main/java/server/Protocol.java:414 | A written line splits into exactly its index, its sample and `-`. |
| MeasurementCsv.ParseValuesOfRows | src/main/java/server/Protocol.java:359-423 | Round trip: the lines written for a sample array read back as exactly that array, in order. |
| MeasurementCsv.AppendedValuesReadBack | src/main/java/server/Protocol.java:359-423 | A file that already held lines reads back as its earlier samples followed by the new ones. |
| MeasurementCsv.ReadIntsOfNumbers | src/main/java/server/Protocol.java:359-363 | Samples sent as JSON numbers in the `int` range are read as themselves. |
| CsvStore.CsvPath | src/main/java/server/Protocol.java:366-370 | A signal file's path ends in `.csv`. |
| CsvStore.CsvFiles.constructor | src/main/java/server/Protocol.java:366-370 | A fresh store has no files and can be written. |
| CsvStore.CsvFiles.Lines | src/main/java/server/Protocol.java:401-408 | A file that does not exist has no lines. |
| CsvStore.CsvFiles.AppendRowsToCsv | src/main/java/server/Protocol.java:366-370 | The lines are appended to the folder's file of today, which is created when needed, and its path is returned. When the store cannot be written the result is null and nothing changes. |
| CsvStore.CsvFiles.Load | src/main/java/server/Protocol.java:401-408 | A file's lines, or null when no file is at the path. |
| Schema.Database.constructor | src/main/java/server/database/DatabaseManager.java:109-160 | A new database has every table empty and keeps the constraints. |
| Schema.Database.DoctorExistsIffInRange | src/main/java/server/database/DatabaseManager.java:138-143 | Under AUTOINCREMENT ids, a doctor exists exactly when its id is between 1 and the row count. |
| Schema.Database.PatientExistsIffInRange | src/main/java/server/database/DatabaseManager.java:110-117 | The same for patients. |
| DoctorDAO.Register | src/main/java/server/database/DoctorDAO.java:13-40 | True exactly when the database is up and the email is free; the row is then appended with exactly the given fields. False leaves the table unchanged. After success the credentials validate and `getIdByEmail` finds the new id. |
| DoctorDAO.AppendedRowIsFound | src/main/java/server/database/DoctorDAO.java:64-77 | A newly appended row with a fresh email is the first match for that email. |
| DoctorDAO.GetIdByEmail | src/main/java/server/database/DoctorDAO.java:64-77 | The id of the row with the email. Null when no row has it or the database is down. |
| DoctorDAO.ValidateLogin | src/main/java/server/database/DoctorDAO.java:43-61 | True only when the database is up and a doctor row holds the email, so that `getIdByEmail` finds it; false on error. |
| DoctorDAO.FirstDoctor | src/main/java/server/database/DoctorDAO.java:144-213 | The first row in table order that satisfies the WHERE clause. Null when none does or on error. |
| DoctorDAO.GetDoctorById | src/main/java/server/database/DoctorDAO.java:144-166 | The doctor with this id, with its phone. Null exactly when there is none or on error. |
| DoctorDAO.GetDoctorByEmail | src/main/java/server/database/DoctorDAO.java:168-190 | The doctor with this email. Null exactly when there is none or on error. |
| DoctorDAO.GetDoctorByName | src/main/java/server/database/DoctorDAO.java:192-213 | The first doctor with this name. Null exactly when there is none or on error. |
| DoctorDAO.LookupsFindTheRow | src/main/java/server/database/DoctorDAO.java:64-213 | Ids and emails are keys: each lookup finds exactly the row that holds it. |
| DoctorDAO.ListedPatientsMeaning | src/main/java/server/database/DoctorDAO.java:85-104 | The list is built exactly when every stored sex names a constant. It then holds one patient per row, in order, with no doctor and empty nested lists. |
| DoctorDAO.ListedPatients | src/main/java/server/database/DoctorDAO.java:85-104 | A built list has one patient per row. The first row whose sex names no constant decides the exception (stated by ListedPatientsMeaning). |
| DoctorDAO.GetPatientsByDoctorId | src/main/java/server/database/DoctorDAO.java:78-111 | Exactly the patient rows whose `doctor_id` is the argument. Empty on error. |
| DoctorDAO.GetAllDoctors | src/main/java/server/database/DoctorDAO.java:114-141 | One entry per row, in order, with id, name, surname and email and a null phone. Empty on error. |
| PatientDAO.Insert | src/main/java/server/database/PatientDAO.java:8-29 | Succeeds exactly when the database is up, the email is free and any named doctor exists; the row is then appended with exactly the given fields. Failure leaves the table unchanged and never raises. |
| PatientDAO.Register | src/main/java/server/database/PatientDAO.java:8-29 | `register`: a patient without a doctor, with the same outcome. A second registration with the same email is false. |
| PatientDAO.RegisterPatient | src/main/java/server/Protocol.java:139 | `registerPatient`: the same insert with the doctor's id. |
| PatientDAO.AppendedRowIsFound | src/main/java/server/database/PatientDAO.java:47-57 | A newly appended row with a fresh email is the first match for that email. |
| PatientDAO.GetIdByEmail | src/main/java/server/database/PatientDAO.java:47-57 | The id of the row with the email. Null when there is none or on error. |
| PatientDAO.ValidateLogin | src/main/java/server/database/PatientDAO.java:33-43 | True only when the database is up and a patient row holds the email, so that `getIdByEmail` finds it; false on error. |
| PatientDAO.LoginFindsTheRow | src/main/java/server/database/PatientDAO.java:33-57 | After `validateLogin` holds, `getIdByEmail` returns the row holding both that email and that hash. |
| PatientDAO.StoredSex | src/main/java/server/Protocol.java:147-160 | A stored sex text reads as the constant of that name, or null. |
| PatientDAO.GetPatientById | src/main/java/server/Protocol.java:147 | The patient with this id, joined with its doctor. Null exactly when there is none or on error. |
| PatientDAO.StoredPatientIsFound | src/main/java/server/Protocol.java:147-150 | Every stored row is found by its id. Its doctor is present exactly when the row names one. |
| AppointmentDAO.Insert | src/main/java/server/database/AppointmentDAO.java:35-57 | Returns the generated id exactly when the database is up, the slot is free and both parties exist. The row is appended. Afterwards `isSlotTaken` holds and the row is in both the doctor's and the patient's listing. Otherwise the result is null and the table is unchanged. |
| AppointmentDAO.IsSlotTaken | src/main/java/server/database/AppointmentDAO.java:116-129 | True on a database error. Otherwise true exactly when the doctor's listing holds an appointment at that datetime. |
| AppointmentDAO.ReadAll | src/main/java/server/database/AppointmentDAO.java:72-80 | The result-set loop keeps every row, in order. |
| AppointmentDAO.ListByDoctor | src/main/java/server/database/AppointmentDAO.java:62-85 | Exactly the doctor's rows as a multiset, ordered by datetime then id, both descending. Empty on error. |
| AppointmentDAO.ListByPatient | src/main/java/server/database/AppointmentDAO.java:90-113 | The same for the patient's rows. |
| AppointmentDAO.DoctorListingHasDistinctSlots | src/main/java/server/database/DatabaseManager.java:155 | Under `UNIQUE(doctor_id, datetime)`, a doctor's listing never shows the same datetime twice. |
| AppointmentDAO.MultisetHasTwo | src/main/java/server/database/AppointmentDAO.java:62-85 | Two positions holding one row give it multiplicity at least two. |
| AppointmentDAO.FilterHasOne | src/main/java/server/database/AppointmentDAO.java:62-85 | A row under AUTOINCREMENT ids occurs at most once in any filter of the table. |
| AppointmentDAO.TableHasOne | src/main/java/server/database/AppointmentDAO.java:62-85 | A row under AUTOINCREMENT ids occurs once in the table. |
| AppointmentDAO.FilterSubMultiset | src/main/java/server/database/AppointmentDAO.java:62-85 | A WHERE clause only drops rows. |
| MessageDAO.Insert | src/main/java/server/database/MessageDAO.java:37-58 | Returns the generated id exactly when the database is up and both parties exist. The row with exactly the given fields is appended and appears in their conversation. Otherwise the result is null, the table is unchanged, and nothing is raised. |
| MessageDAO.ListConversation | src/main/java/server/database/MessageDAO.java:64-92 | Only and all rows of this doctor and patient, ordered by timestamp then id, both ascending. Empty on error. |
| MessageDAO.ConversationIsChatOrdered | src/main/java/server/database/MessageDAO.java:69 | Neighbouring messages are in chat order: timestamps ascend, and equal timestamps keep insertion order. |
| MeasurementDAO.InsertMeta | src/main/java/server/database/MeasurementDAO.java:8-21 | True exactly when the database is up and the patient exists. The row is then appended and found by its id. |
| MeasurementDAO.GetById | src/main/java/server/Protocol.java:395-399 | The metadata row with this id. Null exactly when there is none or on error. |
| MeasurementDAO.ListByPatientId | src/main/java/server/Protocol.java:555-556 | A multiset equal to the patient's rows, sorted by started_at then id, both descending. Empty on error. |
| SymptomDAO.InsertSymptom | src/main/java/server/database/SymptomDAO.java:8-20 | True exactly when the database is up and the patient exists. The row, stamped with the current time, is then appended. |
| SymptomDAO.GetSymptomsByPatientId | src/main/java/server/Protocol.java:488 | Exactly the patient's symptom rows, in table order. Empty on error. |
| Ordering.TextLeTotal | src/main/java/server/database/AppointmentDAO.java:65 | Text comparison orders any two strings. |
| Ordering.TextLeAntisymmetric | src/main/java/server/database/AppointmentDAO.java:65 | Text comparison is antisymmetric. |
| Ordering.TextLeTransitive | src/main/java/server/database/AppointmentDAO.java:65 | Text comparison is transitive. |
| Ordering.KeyLeTotal | src/main/java/server/database/AppointmentDAO.java:65 | Ordering by text then id orders any two rows. |
| Ordering.KeyLeTransitive | src/main/java/server/database/AppointmentDAO.java:65 | That order is transitive. |
| Ordering.KeyLeAntisymmetric | src/main/java/server/database/AppointmentDAO.java:65 | Two keys that sort both ways are equal. |
| Ordering.InsertPermutes | src/main/java/server/database/AppointmentDAO.java:65 | Inserting into a listing adds exactly one row. |
| Ordering.InsertSorted | src/main/java/server/database/AppointmentDAO.java:65 | Inserting keeps a listing sorted. |
| Ordering.PrecedesTotal | src/main/java/server/database/MessageDAO.java:69 | In either direction, any two rows are ordered. |
| Ordering.PrecedesTransitive | src/main/java/server/database/MessageDAO.java:69 | In either direction, the order is transitive. |
| Ordering.SortByCorrect | src/main/java/server/database/AppointmentDAO.java:65 | `ORDER BY` returns a sorted permutation of its rows. |
| Ordering.Select | src/main/java/server/database/MessageDAO.java:66-69 | `SELECT ... WHERE ... ORDER BY`: exactly the matching rows, sorted. |
| DataStorage.InMemoryStore.constructor | src/main/java/server/DataStorage.java:14-34 | Every sequence starts at 1 and nothing is stored. |
| DataStorage.InMemoryStore.RegisterDoctor | src/main/java/server/DataStorage.java:38-54 | Raises `There is already a user with email: <email>` exactly when the email has credentials in either role. Otherwise the doctor takes the current sequence value, which is then incremented. The credentials, the role DOCTOR, the id map and the email map are set. The patient maps are untouched. The account then logs in as DOCTOR. |
| DataStorage.InMemoryStore.StoreDoctor | src/main/java/server/DataStorage.java:45-53 | The map updates of a doctor registration, which keep the store's invariant. |
| DataStorage.InMemoryStore.GetDoctorById | src/main/java/server/DataStorage.java:56-58 | The doctor stored under the id, or null. |
| DataStorage.InMemoryStore.ListAllDoctors | src/main/java/server/DataStorage.java:60-64 | Every stored doctor once. |
| DataStorage.InMemoryStore.RegisterPatient | src/main/java/server/DataStorage.java:66-82 | The same as `registerDoctor` on the patient maps, with role PATIENT. |
| DataStorage.InMemoryStore.StorePatient | src/main/java/server/DataStorage.java:73-81 | The map updates of a patient registration, which keep the store's invariant. |
| DataStorage.InMemoryStore.GetPatientById | src/main/java/server/DataStorage.java:84-86 | The patient stored under the id, or null. |
| DataStorage.InMemoryStore.ListAllPatients | src/main/java/server/DataStorage.java:88-90 | Every stored patient once. |
| DataStorage.InMemoryStore.AssignDoctorToPatient | src/main/java/server/DataStorage.java:92-105 | Raises `Patient or doctor not found` exactly when either id is unknown, and then changes nothing. Otherwise it sets the patient's doctor and adds the patient to the doctor's list without duplicating it. |
| DataStorage.JoinList | src/main/java/server/DataStorage.java:99-103 | The doctor's list gains the patient and keeps everything else. A list without duplicates stays without them. |
| DataStorage.InMemoryStore.ValidateLogin | src/main/java/server/DataStorage.java:107-121 | Null exactly when the username is unknown or the password differs. Otherwise a User with the stored role, or PATIENT when no role is recorded. |
| DataStorage.InMemoryStore.AddAppointment | src/main/java/server/DataStorage.java:123-130 | Appends exactly one appointment at the end, under the next id. The other lists are unchanged. |
| DataStorage.InMemoryStore.ListAppointmentsForDoctor | src/main/java/server/DataStorage.java:132-143 | The doctor's appointments in insertion order. When a patient is given, only that patient's. |
| DataStorage.AddedAppointmentListedLast | src/main/java/server/DataStorage.java:123-143 | After `addAppointment`, a doctor's listing is the earlier listing followed by the new appointment when it matches: insertion order is kept. |
| DataStorage.InMemoryStore.ListAppointmentsForPatient | src/main/java/server/DataStorage.java:145-155 | The patient's appointments in insertion order. |
| DataStorage.InMemoryStore.AddMeasurement | src/main/java/server/DataStorage.java:157-165 | Appends exactly one measurement under the next id. The other lists are unchanged. |
| DataStorage.InMemoryStore.ListMeasurementsForPatient | src/main/java/server/DataStorage.java:167-177 | The patient's measurements in insertion order. |
| DataStorage.InMemoryStore.AddSymptoms | src/main/java/server/DataStorage.java:179-187 | Appends exactly one symptom record under the next id. The other lists are unchanged. |
| DataStorage.InMemoryStore.ListSymptomsForPatient | src/main/java/server/DataStorage.java:189-198 | The patient's symptom records in insertion order. |
| StoreRecords.DoctorIndexAdd | src/main/java/server/DataStorage.java:45-53 | A doctor stored under the next id keeps every id positive, below the sequence and its own key, and every email indexing the doctor that holds it. |
| StoreRecords.PatientIndexAdd | src/main/java/server/DataStorage.java:73-81 | The same for patients. |
| StoreRecords.DoctorAccountAdd | src/main/java/server/DataStorage.java:48-53 | A fresh username joins the doctor accounts: every username with a password stays the email of exactly one account, and its role is that account's. |
| StoreRecords.PatientAccountAdd | src/main/java/server/DataStorage.java:76-81 | A fresh username joins the patient accounts. |
| StoreRecords.DoctorRegistered | src/main/java/server/DataStorage.java:38-54 | `registerDoctor`'s whole update preserves the store's invariant. |
| StoreRecords.PatientRegistered | src/main/java/server/DataStorage.java:66-82 | `registerPatient`'s whole update preserves the store's invariant. |
| Pojos.SexValueOf | src/main/java/server/database/DoctorDAO.java:96 | `Sex.valueOf` accepts exactly the constant names. Anything else raises `No enum constant pojos.Sex.<name>`. |
| Pojos.SexNameRoundTrip | src/main/java/server/database/DoctorDAO.java:96 | A constant read back by its name is itself. |
| Encryption.Mask | src/main/java/utilities/Encryption.java:61-62 | `0xff & b` is the byte read unsigned, and negative bytes map to 0x80..0xff. |
| Encryption.HexDigit | src/main/java/utilities/Encryption.java:62 | A hex digit is lower case. |
| Encryption.BytesToHex | src/main/java/utilities/Encryption.java:56-66 | The loop produces the byte pairs, in order. |
| Encryption.HexLength | src/main/java/utilities/Encryption.java:60-66 | The output is exactly twice as long as the input. |
| Encryption.HexAt | src/main/java/utilities/Encryption.java:61-65 | Byte i occupies characters 2i and 2i+1. |
| Encryption.HexIsLowerCase | src/main/java/utilities/Encryption.java:62-64 | Every output character is a lower-case hex digit. |
| Encryption.HexPairPadded | src/main/java/utilities/Encryption.java:62-64 | Each byte becomes two characters, with a leading '0' exactly when the byte is below 0x10. |
| Encryption.HexDigitInjective | src/main/java/utilities/Encryption.java:62 | Distinct nibbles give distinct digits. |
| Encryption.HexPairInjective | src/main/java/utilities/Encryption.java:61-65 | Distinct bytes give distinct pairs. |
| Encryption.HexInjective | src/main/java/utilities/Encryption.java:56-66 | The encoding is injective. |
| Encryption.EncryptPassword | src/main/java/utilities/Encryption.java:34-49 | The hash of a 256-bit key is 64 lower-case hex characters. |
| Encryption.SameHashIffSameKey | src/main/java/utilities/Encryption.java:25-49 | Two passwords have equal hashes exactly when PBKDF2 gives them equal keys. Equal passwords therefore give equal hashes. |
| Common.Wrap32 | src/main/java/server/Protocol.java:803-805 | Narrowing to `int` keeps the value modulo 2^32, and the value itself when it fits. |
| Common.IntToString | src/main/java/server/Protocol.java:361 | An `int` prints as an optional minus followed by digits. |
| Common.ParseIntToString | src/main/java/server/Protocol.java:361-417 | `parseInt` undoes the printing of every `int`. |
| Common.ParseIntMeaning | src/main/java/server/Protocol.java:417 | `parseInt` accepts a sign or digit followed by digits only, and the sign decides the sign of the value. |
| Common.SplitMeaning | src/main/java/server/Protocol.java:414 | `split(",")` gives the line itself when it has no comma. Otherwise its pieces hold no comma and the last one is non-empty. |
| Common.TrimMeaning | src/main/java/server/Protocol.java:417 | `trim` leaves the input without the characters up to U+0020 at its ends, and the result neither starts nor ends with one. |
| Common.IsBlank | src/main/java/server/Protocol.java:111 | `isBlank` holds for the empty string, and fails exactly when some character is not whitespace. |
| Common.DigitsValueOfNatToString | src/main/java/server/Protocol.java:361-417 | The digits of a natural number read back as that number. |
| Common.Filter | src/main/java/server/DataStorage.java:132-198 | Every kept element passes and comes from the input, and every passing element is kept. |
| Common.FilterAppend | src/main/java/server/DataStorage.java:132-143 | Filtering distributes over concatenation, so kept elements stay in their input order. |
| Common.FilterSingleton | src/main/java/server/DataStorage.java:134-139 | One element is kept exactly when it passes the test. |
| Common.FilterCounts | src/main/java/server/DataStorage.java:132-198 | A passing element keeps its multiplicity and a failing one is dropped. |
| Common.FindFirst | src/main/java/server/database/DoctorDAO.java:144-213 | The first position that satisfies the test, or none. |
| Common.Map | src/main/java/server/Protocol.java:560-569 | One image per element, in order. |

## Left out

- Sockets, the thread pool and per-connection line I/O (`ServerMain`, `ClientHandler`) are not part of this model. The model is sequential: `synchronized`, `AtomicInteger` and the race between `isSlotTaken` and `insert` are not modelled.
- Concurrency is the only way several router branches can run. These are "patient not found after login", "doctor not found after login", "patient registered but not found" and "doctor registered but ID not found". Under sequential execution they cannot run, and the model proves they are dead.
- Gson's text parsing and serialisation are not modelled. A request line is the value Gson yields for it: blank, malformed with its message, or an object. A response is a JSON value, and its member order and text are not modelled. JSON numbers are integers only. `getAsInt` keeps the low 32 bits of a wider integer.
- The JDK's text for the NullPointerException LOGIN raises for a patient without a doctor is a fixed constant. Its exact text depends on the JDK.
- PBKDF2 is an uninterpreted function returning 32 bytes, taken as a parameter. Its salt, iteration count and key length are named constants. The clock (`LocalDateTime.now()`) and today's date are parameters too.
- `loadCsvAsJson` builds a JSON text of the rows, which the router parses again. The model hands the rows over directly. A file is null only when it does not exist, and the CSV header line is implied rather than stored.
- Protocol.GetMeasurementValues: reads back every line of the measurement's file, which is the file of its patient and day. The exact round trip therefore holds only for the first measurement of a day. `MeasurementCsv.AppendedValuesReadBack` states what a later one reads.
- Protocol.SendMeasurement: when the metadata insert fails, the lines already appended to the file stay there, as in the source.
- The `hour` member of SEND_SYMPTOMS is read and blank-checked. Its `LocalDateTime.parse` result and any parse failure are both discarded, so that parse is not modelled.
- The ids -1 that SEND_SYMPTOMS and SEND_MEASUREMENT return are the placeholders the router writes. They are not the ids of the stored rows.
- Protocol.java calls `registerPatient`, `getPatientById`, `MeasurementDAO.getById` and `listByPatientId`, `getSymptomsByPatientId`, `appendRowsToCsv` and `loadCsvAsJson`. None of the repository files in this model defines them. PatientDAO.java has only `register`, `validateLogin` and `getIdByEmail`. MeasurementDAO.java has only `insertMeta`. SymptomDAO.java has only `insertSymptom`. Each of these calls is modelled from its name and from how the router uses it. `Sex` is assumed to have exactly the constants MALE and FEMALE.
- PatientDAO.GetPatientById: PatientDAO.java does not define `getPatientById`. The model assumes it reads a stored sex that names no constant as null. `getPatientsByDoctorId` instead raises through `Sex.valueOf` (DoctorDAO.java:96). REGISTER_PATIENT defaults a missing sex to "" (Protocol.java:101). Under the other reading, such a registration would store its row and then answer "Internal error".
- MeasurementDAO.ListByPatientId: MeasurementDAO.java defines only `insertMeta`. The model assumes `listByPatientId` returns the patient's rows ordered by started_at DESC, then id DESC, like AppointmentDAO's listings. No code fixes this order.
- DataStorage.InMemoryStore.ListAllDoctors: the order of a `HashMap`'s values is unspecified, so only "each stored doctor once" is stated. The same holds for `ListAllPatients`.
- DataStorage.InMemoryStore: the source's objects are shared by reference between maps. The model stores values keyed by id and writes the updated value back. Aliasing through other references is not captured.
- `Integer.parseInt` accepts ASCII digits only in the model. Java also accepts other Unicode decimal digits.
- Protocol.Process: the stack-trace printing in the catch blocks is not modelled.
- Database connection set-up, the file search for the database, the PRAGMAs and the DDL are not modelled. Only the constraints are kept, as the invariant of `Schema.Database`.
