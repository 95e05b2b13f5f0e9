/** server/database/AppointmentDAO.java: the statements on the
    `appointments` table. An `AppointmentMeta` carries exactly the columns
    of a row, so the model hands back the rows themselves. */
module AppointmentDAO {
  import opened Common
  import opened Schema
  import opened Ordering

  /** `ORDER BY datetime ..., id ...`. */
  function Key(a: AppointmentRow): SortKey {
    SortKey(a.datetime, a.id)
  }

  /** `insert`: the generated id, or null when the statement raised because
      the connection is down, the (doctor_id, datetime) slot is already
      booked, or the doctor or the patient does not exist. */
  method Insert(db: Database, doctorId: int, patientId: int, datetime: string, message: string)
    returns (id: Option<int>)
    requires db.Valid()
    modifies db`appointments
    ensures db.Valid()
    ensures id.Some? <==> && old(db.online) && !old(db.SlotTaken(doctorId, datetime))
                          && db.DoctorExists(doctorId) && db.PatientExists(patientId)
    ensures id.Some? ==> && id.value == |old(db.appointments)| + 1
                         && db.appointments == old(db.appointments)
                              + [AppointmentRow(id.value, doctorId, patientId, datetime, message)]
    ensures id.None? ==> db.appointments == old(db.appointments)
    ensures id.Some? ==> && IsSlotTaken(db, doctorId, datetime)
                         && AppointmentRow(id.value, doctorId, patientId, datetime, message)
                              in DoctorAppointments(db, doctorId)
                         && AppointmentRow(id.value, doctorId, patientId, datetime, message)
                              in PatientAppointments(db, patientId)
  {
    db.DoctorExistsIffInRange(doctorId);
    db.PatientExistsIffInRange(patientId);
    if !db.online || db.SlotTaken(doctorId, datetime)
       || !db.DoctorExists(doctorId) || !db.PatientExists(patientId) {
      return None;
    }
    var row := AppointmentRow(|db.appointments| + 1, doctorId, patientId, datetime, message);
    db.appointments := db.appointments + [row];
    assert db.appointments[|db.appointments| - 1] == row;
    id := Some(row.id);
  }

  /** `isSlotTaken`: some row books this doctor at this datetime; true as
      well when the query fails, so that nothing is booked on an error. */
  predicate IsSlotTaken(db: Database, doctorId: int, datetime: string): (taken: bool)
    reads db
    ensures !db.online ==> taken
    ensures db.online ==> (taken <==> exists a :: a in DoctorAppointments(db, doctorId) && a.datetime == datetime)
  {
    !db.online || db.SlotTaken(doctorId, datetime)
  }

  /** The rows `WHERE doctor_id = ? ORDER BY datetime DESC, id DESC`. */
  function DoctorAppointments(db: Database, doctorId: int): seq<AppointmentRow>
    reads db
  {
    Select(db.appointments, (a: AppointmentRow) => a.doctorId == doctorId, Key, true)
  }

  /** The rows `WHERE patient_id = ? ORDER BY datetime DESC, id DESC`. */
  function PatientAppointments(db: Database, patientId: int): seq<AppointmentRow>
    reads db
  {
    Select(db.appointments, (a: AppointmentRow) => a.patientId == patientId, Key, true)
  }

  /** Reads a result set into a list, row by row. */
  method ReadAll(rows: seq<AppointmentRow>) returns (r: seq<AppointmentRow>)
    ensures r == rows
  {
    r := [];
    var i := 0;
    while i < |rows|
      invariant 0 <= i <= |rows| && r == rows[..i]
    {
      r := r + [rows[i]];
      i := i + 1;
    }
  }

  /** `listByDoctor`: exactly this doctor's appointments, latest first,
      ties on the datetime broken by the larger id first; empty on error. */
  method ListByDoctor(db: Database, doctorId: int) returns (r: seq<AppointmentRow>)
    ensures !db.online ==> r == []
    ensures db.online ==> r == DoctorAppointments(db, doctorId)
    ensures db.online ==> multiset(r) == multiset(Filter(db.appointments,
                                                         (a: AppointmentRow) => a.doctorId == doctorId))
    ensures SortedBy(r, Key, true)
  {
    if !db.online {
      return [];
    }
    r := ReadAll(DoctorAppointments(db, doctorId));
  }

  /** `listByPatient`: exactly this patient's appointments, in the same
      order; empty on error. */
  method ListByPatient(db: Database, patientId: int) returns (r: seq<AppointmentRow>)
    ensures !db.online ==> r == []
    ensures db.online ==> r == PatientAppointments(db, patientId)
    ensures db.online ==> multiset(r) == multiset(Filter(db.appointments,
                                                         (a: AppointmentRow) => a.patientId == patientId))
    ensures SortedBy(r, Key, true)
  {
    if !db.online {
      return [];
    }
    r := ReadAll(PatientAppointments(db, patientId));
  }

  /** A doctor's listing never shows the same slot twice: the UNIQUE
      (doctor_id, datetime) constraint makes the datetimes distinct, so the
      listing is strictly descending in datetime. */
  lemma DoctorListingHasDistinctSlots(db: Database, doctorId: int)
    requires db.Valid()
    ensures var r := DoctorAppointments(db, doctorId);
            forall i, j :: 0 <= i < j < |r| ==> r[i].datetime != r[j].datetime
  {
    var r := DoctorAppointments(db, doctorId);
    forall i, j | 0 <= i < j < |r|
      ensures r[i].datetime != r[j].datetime
    {
      var a, b := r[i], r[j];
      var ka :| 0 <= ka < |db.appointments| && db.appointments[ka] == a;
      var kb :| 0 <= kb < |db.appointments| && db.appointments[kb] == b;
      if ka == kb {
        // The same row listed twice would be counted twice by the multiset.
        MultisetHasTwo(r, i, j);
        FilterHasOne(db.appointments, (x: AppointmentRow) => x.doctorId == doctorId, ka);
      }
    }
  }

  /** Two positions holding the same row give it multiplicity at least two. */
  lemma MultisetHasTwo<T>(s: seq<T>, i: nat, j: nat)
    requires i < j < |s| && s[i] == s[j]
    ensures multiset(s)[s[i]] >= 2
  {
    var x := s[i];
    assert s == s[..i] + [x] + s[i + 1..j] + [x] + s[j + 1..];
  }

  /** A row whose id is its position plus one occurs at most once in any
      filter of the table. */
  lemma FilterHasOne(rows: seq<AppointmentRow>, keep: AppointmentRow -> bool, k: nat)
    requires k < |rows| && forall i :: 0 <= i < |rows| ==> rows[i].id == i + 1
    ensures multiset(Filter(rows, keep))[rows[k]] <= 1
  {
    TableHasOne(rows, k);
    FilterSubMultiset(rows, keep);
  }

  lemma {:induction false} TableHasOne(rows: seq<AppointmentRow>, k: nat)
    requires k < |rows| && forall i :: 0 <= i < |rows| ==> rows[i].id == i + 1
    ensures multiset(rows)[rows[k]] == 1
  {
    var init := rows[..|rows| - 1];
    var last := rows[|rows| - 1];
    assert rows == init + [last];
    assert forall x :: x in init ==> x.id < |rows|;
    if k == |rows| - 1 {
      assert last !in init;
    } else {
      TableHasOne(init, k);
      assert init[k] == rows[k];
      assert last != rows[k];
    }
  }

  lemma {:induction false} FilterSubMultiset<T>(rows: seq<T>, keep: T -> bool)
    ensures multiset(Filter(rows, keep)) <= multiset(rows)
  {
    if rows != [] {
      var init := rows[..|rows| - 1];
      FilterSubMultiset(init, keep);
      assert rows == init + [rows[|rows| - 1]];
    }
  }
}
