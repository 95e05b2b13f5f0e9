/** The JSON values the router reads requests from and writes responses to
    (Gson's `JsonElement` tree), and the Gson accessors it calls on them.
    Numbers are integers; an object is a map from member names to values.
    An accessor applied to the wrong kind of value raises, as in Gson 2.10:
    UnsupportedOperationException naming the class, IllegalStateException
    for an array that does not hold exactly one element, and
    NumberFormatException for text that is not an `int`. */
module Json {
  import opened Common

  datatype Json =
    | JNull
    | JBool(b: bool)
    | JNum(n: int)
    | JStr(s: string)
    | JArr(items: seq<Json>)
    | JObj(fields: map<string, Json>)

  type Object = map<string, Json>

  /** `Integer.parseInt`'s exception for a string it rejects. */
  function NumberFormat(s: string): Failure {
    Failure("For input string: \"" + s + "\"")
  }

  /** `JsonArray.getAsSingleElement`'s exception. */
  function NotSingle(size: nat): Failure {
    Failure("Array must have size 1, but has size " + IntToString(size))
  }

  /** `JsonElement.getAsString()`: the text of a primitive; the only element
      of a one-element array. */
  function GetAsString(j: Json): (r: Result<string>)
    ensures j.JStr? ==> r == Ok(j.s)
    ensures j.JNum? ==> r == Ok(IntToString(j.n))
    ensures j.JNull? || j.JObj? ==> r.Err?
    decreases j
  {
    match j
    case JNull => Err(Failure("JsonNull"))
    case JBool(b) => Ok(if b then "true" else "false")
    case JNum(n) => Ok(IntToString(n))
    case JStr(s) => Ok(s)
    case JArr(items) => if |items| == 1 then GetAsString(items[0]) else Err(NotSingle(|items|))
    case JObj(_) => Err(Failure("JsonObject"))
  }

  /** `JsonElement.getAsInt()`: a number narrowed to `int` (its low 32
      bits); a string through `Integer.parseInt`; the only element of a
      one-element array. */
  function GetAsInt(j: Json): (r: Result<Int32>)
    ensures j.JNum? ==> r == Ok(Wrap32(j.n))
    ensures j.JStr? ==> (r.Ok? <==> ParseInt(j.s).Some?)
    ensures j.JStr? && r.Ok? ==> r.value == ParseInt(j.s).value
    ensures j.JNull? || j.JBool? || j.JObj? ==> r.Err?
    decreases j
  {
    match j
    case JNull => Err(Failure("JsonNull"))
    case JBool(b) => Err(NumberFormat(if b then "true" else "false"))
    case JNum(n) => Ok(Wrap32(n))
    case JStr(s) => (match ParseInt(s) case Some(v) => Ok(v) case None => Err(NumberFormat(s)))
    case JArr(items) => if |items| == 1 then GetAsInt(items[0]) else Err(NotSingle(|items|))
    case JObj(_) => Err(Failure("JsonObject"))
  }

  /** The router's `getString(obj, key, def)`: the default when the member
      is absent or JSON null, otherwise the member read as a string. */
  function GetString(obj: Object, key: string, def: Option<string>): (r: Result<Option<string>>)
    ensures key !in obj || obj[key].JNull? ==> r == Ok(def)
    ensures key in obj && !obj[key].JNull? ==> (r.Ok? <==> GetAsString(obj[key]).Ok?)
    ensures key in obj && !obj[key].JNull? && r.Ok? ==> r.value == Some(GetAsString(obj[key]).value)
  {
    if key in obj && !obj[key].JNull? then
      var s :- GetAsString(obj[key]);
      Ok(Some(s))
    else Ok(def)
  }

  /** `getString` with a non-null default, as most handlers call it. */
  function GetText(obj: Object, key: string, def: string): (r: Result<string>)
    ensures r.Ok? <==> GetString(obj, key, Some(def)).Ok?
    ensures r.Ok? ==> Some(r.value) == GetString(obj, key, Some(def)).value
  {
    var s :- GetString(obj, key, Some(def));
    Ok(s.value)
  }

  /** The router's `getInt(obj, key, def)`. */
  function GetInt(obj: Object, key: string, def: Int32): (r: Result<Int32>)
    ensures key !in obj || obj[key].JNull? ==> r == Ok(def)
    ensures key in obj && !obj[key].JNull? ==> r == GetAsInt(obj[key])
  {
    if key in obj && !obj[key].JNull? then GetAsInt(obj[key]) else Ok(def)
  }

  /** An `int` sent as its decimal text is read back as that `int`, just as
      one sent as a number is. */
  lemma GetIntReadsDigits(obj: Object, key: string, n: Int32)
    requires key in obj && (obj[key] == JStr(IntToString(n)) || obj[key] == JNum(n))
    ensures GetInt(obj, key, -1) == Ok(n)
  {
    if obj[key].JStr? {
      ParseIntToString(n);
    }
  }
}
