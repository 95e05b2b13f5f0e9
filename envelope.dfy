/** The message layer of the router (server/Protocol.java): what a request
    line parses to, the actions it may name, and the response objects the
    router writes back. A request is `{"action", "requestId", "payload"}`;
    a response is the envelope `{"type": "RESPONSE", "action", "requestId",
    "status", "message", "payload"}`, with `requestId` left out when the
    request had none (a null member is not written). */
module Envelope {
  import opened Common
  import opened Json

  /** What `gson.fromJson(line, JsonObject.class)` yields: null for a blank
      line; JsonSyntaxException, with its message, for text that is not one
      JSON object (the literal `null` among them, which Gson refuses as "not
      a JsonObject"); otherwise the object. */
  datatype Inbound = Blank | Malformed(detail: string) | Parsed(req: Object)

  /** The actions the router dispatches on. */
  datatype Action =
    | REGISTER_PATIENT | REGISTER_DOCTOR | LOGIN | SEND_SYMPTOMS | SEND_MEASUREMENT
    | LIST_PATIENTS | REQUEST_APPOINTMENT | LIST_APPOINTMENTS | LIST_MEASUREMENTS
    | GET_MEASUREMENT_VALUES | LIST_SYMPTOMS | LIST_DOCTORS | SEND_MESSAGE | LIST_MESSAGES

  const UNKNOWN: string := "UNKNOWN"

  /** The text a client sends for an action. */
  function ActionName(a: Action): string {
    match a
    case REGISTER_PATIENT => "REGISTER_PATIENT"
    case REGISTER_DOCTOR => "REGISTER_DOCTOR"
    case LOGIN => "LOGIN"
    case SEND_SYMPTOMS => "SEND_SYMPTOMS"
    case SEND_MEASUREMENT => "SEND_MEASUREMENT"
    case LIST_PATIENTS => "LIST_PATIENTS"
    case REQUEST_APPOINTMENT => "REQUEST_APPOINTMENT"
    case LIST_APPOINTMENTS => "LIST_APPOINTMENTS"
    case LIST_MEASUREMENTS => "LIST_MEASUREMENTS"
    case GET_MEASUREMENT_VALUES => "GET_MEASUREMENT_VALUES"
    case LIST_SYMPTOMS => "LIST_SYMPTOMS"
    case LIST_DOCTORS => "LIST_DOCTORS"
    case SEND_MESSAGE => "SEND_MESSAGE"
    case LIST_MESSAGES => "LIST_MESSAGES"
  }

  /** The `switch (action)`: the action whose name is exactly this text,
      case-sensitively, or none. */
  function ParseAction(s: string): (a: Option<Action>)
    ensures a.Some? ==> ActionName(a.value) == s
    ensures forall b: Action :: ActionName(b) == s ==> a == Some(b)
  {
    if s == "REGISTER_PATIENT" then Some(REGISTER_PATIENT)
    else if s == "REGISTER_DOCTOR" then Some(REGISTER_DOCTOR)
    else if s == "LOGIN" then Some(LOGIN)
    else if s == "SEND_SYMPTOMS" then Some(SEND_SYMPTOMS)
    else if s == "SEND_MEASUREMENT" then Some(SEND_MEASUREMENT)
    else if s == "LIST_PATIENTS" then Some(LIST_PATIENTS)
    else if s == "REQUEST_APPOINTMENT" then Some(REQUEST_APPOINTMENT)
    else if s == "LIST_APPOINTMENTS" then Some(LIST_APPOINTMENTS)
    else if s == "LIST_MEASUREMENTS" then Some(LIST_MEASUREMENTS)
    else if s == "GET_MEASUREMENT_VALUES" then Some(GET_MEASUREMENT_VALUES)
    else if s == "LIST_SYMPTOMS" then Some(LIST_SYMPTOMS)
    else if s == "LIST_DOCTORS" then Some(LIST_DOCTORS)
    else if s == "SEND_MESSAGE" then Some(SEND_MESSAGE)
    else if s == "LIST_MESSAGES" then Some(LIST_MESSAGES)
    else None
  }

  /** The actions whose handler may write to the database or the signal
      files; every other request leaves both as they were. */
  predicate Writes(a: Action) {
    a in {REGISTER_PATIENT, REGISTER_DOCTOR, SEND_SYMPTOMS, SEND_MEASUREMENT,
          REQUEST_APPOINTMENT, SEND_MESSAGE}
  }

  /** `getPayload(req)`: the `payload` member when it is an object, otherwise
      an empty object. */
  function GetPayload(req: Object): (p: Object)
    ensures "payload" in req && req["payload"].JObj? ==> p == req["payload"].fields
    ensures "payload" !in req || !req["payload"].JObj? ==> p == map[]
  {
    if "payload" in req && req["payload"].JObj? then req["payload"].fields else map[]
  }

  /** `addProperty(key, value)` for a string that may be null: a null
      member is not written out, so it is simply absent. */
  function PutText(m: Object, key: string, value: Option<string>): (r: Object)
    ensures value.Some? ==> r == m[key := JStr(value.value)]
    ensures value.None? ==> r == m - {key}
  {
    if value.Some? then m[key := JStr(value.value)] else m - {key}
  }

  /** The members every response of the envelope carries but the payload. */
  function BaseResponse(action: string, requestId: Option<string>, status: string, msg: string): Object {
    var r := map["type" := JStr("RESPONSE"), "action" := JStr(action)];
    var r := PutText(r, "requestId", requestId);
    r["status" := JStr(status)]["message" := JStr(msg)]
  }

  /** `error(requestId, action, msg)`: status ERROR and an empty payload. */
  function ErrorResponse(requestId: Option<string>, action: string, msg: string): (r: Json)
    ensures IsEnvelope(r) && Echoes(r, requestId)
    ensures Status(r) == "ERROR" && r.fields["action"] == JStr(action)
    ensures r.fields["message"] == JStr(msg) && r.fields["payload"] == JObj(map[])
  {
    JObj(BaseResponse(action, requestId, "ERROR", msg)["payload" := JObj(map[])])
  }

  /** A successful answer: status OK and the handler's payload. */
  function OkResponse(action: Action, requestId: Option<string>, msg: string, payload: Object): (r: Json)
    ensures IsEnvelope(r) && Echoes(r, requestId)
    ensures Status(r) == "OK" && r.fields["action"] == JStr(ActionName(action))
    ensures r.fields["message"] == JStr(msg) && r.fields["payload"] == JObj(payload)
  {
    JObj(BaseResponse(ActionName(action), requestId, "OK", msg)["payload" := JObj(payload)])
  }

  /** The LIST_PATIENTS answer, which is built by hand outside the
      envelope: no `type`, no `message`, no `payload`, the list at the top. */
  function PatientListing(requestId: Option<string>, patients: seq<Json>): (r: Json)
    ensures r.JObj? && !IsEnvelope(r) && Echoes(r, requestId)
    ensures Status(r) == "OK" && "patients" in r.fields && r.fields["patients"] == JArr(patients)
  {
    var r := PutText(map[], "requestId", requestId);
    JObj(r["action" := JStr("LIST_PATIENTS")]["status" := JStr("OK")]["patients" := JArr(patients)])
  }

  /** The shape every envelope response has. */
  predicate IsEnvelope(j: Json) {
    && j.JObj?
    && (forall k :: k in j.fields ==> k in {"type", "action", "requestId", "status", "message", "payload"})
    && "type" in j.fields && j.fields["type"] == JStr("RESPONSE")
    && "action" in j.fields && j.fields["action"].JStr?
    && "status" in j.fields && j.fields["status"] in {JStr("OK"), JStr("ERROR")}
    && "message" in j.fields && j.fields["message"].JStr?
    && "payload" in j.fields && j.fields["payload"].JObj?
    && ("requestId" in j.fields ==> j.fields["requestId"].JStr?)
  }

  /** The status of a response object, or "" when it has none. */
  function Status(j: Json): string {
    if j.JObj? && "status" in j.fields && j.fields["status"].JStr? then j.fields["status"].s else ""
  }

  /** A member of a response's payload, if the response has one. */
  function Member(j: Json, key: string): Option<Json> {
    if j.JObj? && "payload" in j.fields && j.fields["payload"].JObj? && key in j.fields["payload"].fields
    then Some(j.fields["payload"].fields[key])
    else None
  }

  /** The response carries the request's id back, or no id at all. */
  predicate Echoes(j: Json, requestId: Option<string>) {
    j.JObj? && (requestId.Some? <==> "requestId" in j.fields)
    && (requestId.Some? ==> j.fields["requestId"] == JStr(requestId.value))
  }
}
