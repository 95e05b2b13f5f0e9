/** server/database/MeasurementDAO.java: `insertMeta`, the INSERT of a
    measurement's metadata. The router also calls `getById` and
    `listByPatientId`, which that file does not contain; they are modelled as
    the lookups their names describe. The listing is assumed to be newest
    first (started_at, then id, both descending), like AppointmentDAO's
    listings; no code fixes that order. */
module MeasurementDAO {
  import opened Common
  import opened Schema
  import opened Ordering

  /** `ORDER BY started_at ..., id ...`. */
  function Key(m: MeasurementRow): SortKey {
    SortKey(m.startedAt, m.id)
  }

  /** `insertMeta`: true when the row went in; false when the statement raised
      because the connection is down or the patient does not exist. */
  method InsertMeta(db: Database, patientId: int, kind: string, startedAt: string, filePath: string)
    returns (ok: bool)
    requires db.Valid()
    modifies db`measurements
    ensures db.Valid()
    ensures ok <==> old(db.online) && db.PatientExists(patientId)
    ensures ok ==> db.measurements == old(db.measurements)
                    + [MeasurementRow(|old(db.measurements)| + 1, patientId, kind, startedAt, filePath)]
    ensures !ok ==> db.measurements == old(db.measurements)
    ensures ok ==> GetById(db, |db.measurements|)
                     == Some(MeasurementRow(|db.measurements|, patientId, kind, startedAt, filePath))
  {
    db.PatientExistsIffInRange(patientId);
    if !db.online || !db.PatientExists(patientId) {
      return false;
    }
    var row := MeasurementRow(|db.measurements| + 1, patientId, kind, startedAt, filePath);
    db.measurements := db.measurements + [row];
    ok := true;
  }

  /** `getById`: the row with this id, or null (also on error). */
  function GetById(db: Database, id: int): (m: Option<MeasurementRow>)
    reads db
    requires db.MeasurementIds()
    ensures m.Some? <==> db.online && 0 < id <= |db.measurements|
    ensures m.Some? ==> m.value.id == id && m.value in db.measurements
  {
    if db.online && 0 < id <= |db.measurements| then Some(db.measurements[id - 1]) else None
  }

  /** The rows that belong to one patient. */
  function OfPatient(patientId: int): MeasurementRow -> bool {
    (m: MeasurementRow) => m.patientId == patientId
  }

  /** The rows `WHERE patient_id = ? ORDER BY started_at DESC, id DESC`. */
  function MeasurementsOf(db: Database, patientId: int): seq<MeasurementRow>
    reads db
  {
    Select(db.measurements, OfPatient(patientId), Key, true)
  }

  /** `listByPatientId`: exactly this patient's measurements, newest first,
      ties on started_at broken by the larger id first; empty on error. The
      result set is read row by row. */
  method ListByPatientId(db: Database, patientId: int) returns (r: seq<MeasurementRow>)
    ensures !db.online ==> r == []
    ensures db.online ==> r == MeasurementsOf(db, patientId)
    ensures db.online ==> multiset(r) == multiset(Filter(db.measurements, OfPatient(patientId)))
    ensures SortedBy(r, Key, true)
  {
    r := [];
    if !db.online {
      return;
    }
    var rows := MeasurementsOf(db, patientId);
    var i := 0;
    while i < |rows|
      invariant 0 <= i <= |rows| && r == rows[..i]
    {
      r := r + [rows[i]];
      i := i + 1;
    }
    assert rows[..i] == rows;
  }
}
