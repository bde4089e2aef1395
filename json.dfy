/** JSON values as the web application stores them in cursors and in the
    session cookie, and the text layer (`json.dumps` / `json.loads`) left
    abstract. An object is a map from member name to value: the cursor
    encoder serialises with `sort_keys=True`, so the order in which a
    dictionary was filled never reaches the text. */
module Json {
  import opened Wrappers
  import Base64

  datatype Json =
    | JNull
    | JBool(b: bool)
    | JInt(i: int)
    | JStr(s: string)
    | JObject(fields: map<string, Json>)

  /** `json.dumps(value, separators=(",", ":"), sort_keys=True)` and
      `json.loads(raw)`; `loads` fails (`None`) on text that is not JSON. */
  datatype Codec = Codec(dumps: Json -> string, loads: seq<Base64.Byte> -> Option<Json>)

  /** What the model takes from the JSON library: loading the UTF-8 bytes of a
      dump gives the value back. */
  ghost predicate RoundTrips(c: Codec) {
    forall j :: c.loads(Base64.Utf8(c.dumps(j))) == Some(j)
  }

  /** The text of an object is never empty (it is at least `{}`). */
  ghost predicate ObjectsNonEmpty(c: Codec) {
    forall f :: c.dumps(JObject(f)) != ""
  }

  /** Python's `None` or an `int`, as stored for a UID anchor. */
  function OptInt(o: Option<int>): (j: Json)
    ensures o.None? <==> j == JNull
  {
    if o.Some? then JInt(o.value) else JNull
  }

  /** Reading back an anchor written by `OptInt`: `null` (or an absent member)
      is `None`, an integer is itself, anything else is not an anchor. */
  function IntOrNull(j: Option<Json>): (r: Result<Option<int>, string>)
    ensures forall o :: j == Some(OptInt(o)) ==> r == Ok(o)
  {
    match j
    case None => Ok(None)
    case Some(JNull) => Ok(None)
    case Some(JInt(i)) => Ok(Some(i))
    case Some(_) => Err("anchor is not an integer")
  }

  /** `d.get(key)` on a JSON object. */
  function Get(fields: map<string, Json>, key: string): (r: Option<Json>)
    ensures r.Some? <==> key in fields
    ensures r.Some? ==> r.value == fields[key]
  {
    if key in fields then Some(fields[key]) else None
  }
}
