/** Python exceptions that the modelled code raises, with the text it gives them. */
module Exceptions {

  datatype PyError =
    | ValueError(message: string)
    | RuntimeError(message: string)
    | JsonDecodeError(document: string)
    | KeyError(key: string)
    | TypeError(operation: string)
    | AttributeError(attribute: string)
    | StopIteration
    | UnboundLocalError(variable: string)
    | CalledProcessError(command: seq<string>)
}

/** Values that `json.loads` produces and `json.dumps` consumes. The JSON grammar
    itself is not modelled: serialising and parsing are parameters of the
    operations that use them. */
module Json {
  import opened Wrappers
  import opened Exceptions

  datatype Json =
    | JNull
    | JBool(b: bool)
    | JInt(i: int)
    | JNum(r: real)
    | JStr(s: string)
    | JArray(items: seq<Json>)
    | JObject(fields: seq<(string, Json)>)

  /** The `json.dumps` layouts used: default separators, `indent=2`, and
      `separators=(",", ":")`. */
  datatype DumpStyle = Plain | Indent2 | Compact

  /** The value stored under `key` in a dict's key/value pairs (a dict built by
      Python or by `json.loads` has each key once). */
  function Lookup(fields: seq<(string, Json)>, key: string): (r: Option<Json>)
    ensures r.None? <==> forall i :: 0 <= i < |fields| ==> fields[i].0 != key
    ensures r.Some? ==> (key, r.value) in fields
  {
    if fields == [] then None
    else if fields[0].0 == key then Some(fields[0].1)
    else Lookup(fields[1..], key)
  }

  /** The first pair with a key is the one a lookup finds. */
  lemma {:induction false} LookupFirst(fields: seq<(string, Json)>, i: nat)
    requires i < |fields| && forall j :: 0 <= j < i ==> fields[j].0 != fields[i].0
    ensures Lookup(fields, fields[i].0) == Some(fields[i].1)
  {
    if i > 0 {
      LookupFirst(fields[1..], i - 1);
    }
  }

  /** Python truthiness: `None`, `False`, zero and empty containers are false. */
  predicate Truthy(j: Json)
  {
    match j
    case JNull => false
    case JBool(b) => b
    case JInt(i) => i != 0
    case JNum(r) => r != 0.0
    case JStr(s) => s != []
    case JArray(xs) => xs != []
    case JObject(fs) => fs != []
  }

  /** `j[key]` for a string key. */
  function Subscript(j: Json, key: string): (r: Result<Json, PyError>)
    ensures r.Ok? <==> j.JObject? && Lookup(j.fields, key).Some?
    ensures r.Err? && j.JObject? ==> r.error == KeyError(key)
  {
    match j
    case JObject(fs) =>
      (match Lookup(fs, key)
       case Some(v) => Ok(v)
       case None => Err(KeyError(key)))
    case _ => Err(TypeError("subscript"))
  }

  /** `len(j)`, defined for strings, lists and dicts. */
  function PyLen(j: Json): (r: Option<nat>)
    ensures r.Some? <==> j.JStr? || j.JArray? || j.JObject?
  {
    match j
    case JStr(s) => Some(|s|)
    case JArray(xs) => Some(|xs|)
    case JObject(fs) => Some(|fs|)
    case _ => None
  }

  /** `for x in j` is allowed: strings, lists and dicts are iterable. */
  predicate Iterable(j: Json)
  {
    j.JStr? || j.JArray? || j.JObject?
  }
}

/** The chat-completion payload: `{"model", "messages", "temperature"}`. */
module Chat {

  datatype Message = Message(role: string, content: string)

  datatype Request = Request(model: string, messages: seq<Message>, temperature: real)
}
