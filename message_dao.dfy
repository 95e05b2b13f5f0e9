/** server/database/MessageDAO.java: the statements on the `messages`
    table. A `MessageMeta` carries exactly the columns of a row, so the model
    hands back the rows themselves. */
module MessageDAO {
  import opened Common
  import opened Schema
  import opened Ordering

  /** `ORDER BY timestamp ..., id ...`. */
  function Key(m: MessageRow): SortKey {
    SortKey(m.timestamp, m.id)
  }

  /** The rows of one doctor–patient conversation. */
  function InConversation(doctorId: int, patientId: int): MessageRow -> bool {
    (m: MessageRow) => m.doctorId == doctorId && m.patientId == patientId
  }

  /** `WHERE doctor_id = ? AND patient_id = ? ORDER BY timestamp ASC, id ASC`. */
  function Conversation(db: Database, doctorId: int, patientId: int): seq<MessageRow>
    reads db
  {
    Select(db.messages, InConversation(doctorId, patientId), Key, false)
  }

  /** `insert`: the generated id, or null when the statement raised because
      the connection is down or the doctor or the patient does not exist. */
  method Insert(db: Database, doctorId: int, patientId: int, senderRole: string,
                timestamp: string, text: string) returns (id: Option<int>)
    requires db.Valid()
    modifies db`messages
    ensures db.Valid()
    ensures id.Some? <==> old(db.online) && db.DoctorExists(doctorId) && db.PatientExists(patientId)
    ensures id.Some? ==> && id.value == |old(db.messages)| + 1
                         && db.messages == old(db.messages)
                              + [MessageRow(id.value, doctorId, patientId, senderRole, timestamp, text)]
    ensures id.None? ==> db.messages == old(db.messages)
    ensures id.Some? ==> MessageRow(id.value, doctorId, patientId, senderRole, timestamp, text)
                           in Conversation(db, doctorId, patientId)
  {
    db.DoctorExistsIffInRange(doctorId);
    db.PatientExistsIffInRange(patientId);
    if !db.online || !db.DoctorExists(doctorId) || !db.PatientExists(patientId) {
      return None;
    }
    var row := MessageRow(|db.messages| + 1, doctorId, patientId, senderRole, timestamp, text);
    db.messages := db.messages + [row];
    assert db.messages[|db.messages| - 1] == row;
    id := Some(row.id);
  }

  /** `listConversation`: exactly the messages between this doctor and this
      patient, oldest first, ties on the timestamp broken by the smaller id;
      empty on error. */
  method ListConversation(db: Database, doctorId: int, patientId: int) returns (r: seq<MessageRow>)
    ensures !db.online ==> r == []
    ensures db.online ==> r == Conversation(db, doctorId, patientId)
    ensures forall i :: 0 <= i < |r| ==> r[i].doctorId == doctorId && r[i].patientId == patientId
    ensures db.online ==> forall i :: (0 <= i < |db.messages| && db.messages[i].doctorId == doctorId
                                       && db.messages[i].patientId == patientId) ==> db.messages[i] in r
    ensures SortedBy(r, Key, false)
  {
    r := [];
    if !db.online {
      return;
    }
    var rows := Conversation(db, doctorId, patientId);
    assert forall i :: 0 <= i < |rows| ==> InConversation(doctorId, patientId)(rows[i]);
    var i := 0;
    while i < |rows|
      invariant 0 <= i <= |rows| && r == rows[..i]
    {
      r := r + [rows[i]];
      i := i + 1;
    }
    assert rows[..|rows|] == rows;
    assert forall i :: 0 <= i < |db.messages| && db.messages[i].doctorId == doctorId
                       && db.messages[i].patientId == patientId
                       ==> InConversation(doctorId, patientId)(db.messages[i]);
  }

  /** Chat order, read off neighbouring messages: a message's timestamp
      never sorts after the next one's, and on equal timestamps the earlier
      insert (smaller id) comes first. */
  lemma ConversationIsChatOrdered(db: Database, doctorId: int, patientId: int)
    ensures var r := Conversation(db, doctorId, patientId);
            forall i :: 0 <= i < |r| - 1 ==>
              if r[i].timestamp == r[i + 1].timestamp then r[i].id <= r[i + 1].id
              else TextLe(r[i].timestamp, r[i + 1].timestamp)
  {
    var r := Conversation(db, doctorId, patientId);
    forall i | 0 <= i < |r| - 1
      ensures if r[i].timestamp == r[i + 1].timestamp then r[i].id <= r[i + 1].id
              else TextLe(r[i].timestamp, r[i + 1].timestamp)
    {
      assert Precedes(Key(r[i]), Key(r[i + 1]), false);
    }
  }
}
