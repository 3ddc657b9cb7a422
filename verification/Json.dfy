/** JSON values as the json module delivers them. A float is kept as its shortest text. */
module Json {
  import opened Collections

  datatype Json =
    | JNull
    | JBool(flag: bool)
    | JInt(number: int)
    | JFloat(repr: string)
    | JStr(text: string)
    | JList(items: seq<Json>)
    | JDict(fields: map<string, Json>)

  type Fields = map<string, Json>

  /** dict.get(key) */
  function Field(d: Fields, key: string): Json {
    if key in d then d[key] else JNull
  }

  /** `value is True` and `value is False` */
  predicate IsTrue(v: Json) { v == JBool(true) }
  predicate IsFalse(v: Json) { v == JBool(false) }

  /** bool(value) */
  predicate Truthy(v: Json) {
    match v
    case JNull => false
    case JBool(b) => b
    case JInt(n) => n != 0
    case JFloat(r) => r != "0.0" && r != "-0.0"
    case JStr(s) => s != ""
    case JList(xs) => xs != []
    case JDict(m) => m != map[]
  }

  /** The json module as a text codec. */
  datatype JsonText = JsonText(dumps: Json -> string, loads: string -> Option<Json>)
  {
    /** json.loads(json.dumps(v)) == v for values with string keys and finite numbers,
        and the empty text is no JSON text. */
    ghost predicate Inverse() {
      loads("") == None && (forall v :: loads(dumps(v)) == Some(v))
    }
  }
}
