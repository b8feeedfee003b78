/** The JSON payloads the functions receive and the part of JSON Schema
    they validate them with: an object whose declared properties have the
    declared type and whose required properties are present. */
module Requests {
  import opened Wrappers
  import Dicts

  /** A decoded JSON value. An object is a dictionary, keyed by text. */
  datatype Json =
    | JString(s: string)
    | JInt(i: int)
    | JReal(x: real)
    | JBool(b: bool)
    | JNull
    | JList(items: seq<Json>)
    | JObject(fields: seq<(string, Json)>)

  /** The `type` keywords the schemas use. */
  datatype JsonType = TString | TNumber

  /** Whether a value is of a schema type. A boolean is not a number. */
  predicate HasType(v: Json, t: JsonType)
  {
    match t
    case TString => v.JString?
    case TNumber => v.JInt? || v.JReal?
  }

  /** `{'type': 'object', 'properties': {...}, 'required': [...]}`. */
  datatype Schema = Schema(properties: seq<(string, JsonType)>, required: seq<string>)

  /** Why an instance does not conform. */
  datatype Violation =
    | NotAnObject
    | WrongType(key: string, expected: JsonType)
    | Missing(key: string)

  /** The reference meaning of conformance, stated rule by rule. */
  predicate Conforms(j: Json, schema: Schema)
  {
    && j.JObject?
    && (forall i :: 0 <= i < |schema.properties| ==>
          var p := schema.properties[i];
          Dicts.Get(j.fields, p.0).Some? ==> HasType(Dicts.Get(j.fields, p.0).value, p.1))
    && (forall i :: 0 <= i < |schema.required| ==> Dicts.Get(j.fields, schema.required[i]).Some?)
  }

  /** Whether `v` is a real fault of `j` against `schema`. */
  predicate Genuine(j: Json, schema: Schema, v: Violation)
  {
    match v
    case NotAnObject => !j.JObject?
    case WrongType(k, t) =>
      j.JObject? && (k, t) in schema.properties
      && Dicts.Get(j.fields, k).Some? && !HasType(Dicts.Get(j.fields, k).value, t)
    case Missing(k) => j.JObject? && k in schema.required && Dicts.Get(j.fields, k).None?
  }

  /** The first declared property present with the wrong type. */
  function BadType(fields: seq<(string, Json)>, props: seq<(string, JsonType)>): (r: Option<Violation>)
    ensures r.None? <==> forall i :: 0 <= i < |props| ==>
      (Dicts.Get(fields, props[i].0).Some? ==> HasType(Dicts.Get(fields, props[i].0).value, props[i].1))
    ensures r.Some? ==> (r.value.WrongType? && (r.value.key, r.value.expected) in props
      && Dicts.Get(fields, r.value.key).Some?
      && !HasType(Dicts.Get(fields, r.value.key).value, r.value.expected))
  {
    if |props| == 0 then None
    else
      var p := props[0];
      var got := Dicts.Get(fields, p.0);
      if got.Some? && !HasType(got.value, p.1) then Some(WrongType(p.0, p.1))
      else
        var rest := BadType(fields, props[1..]);
        assert forall i :: 1 <= i < |props| ==> props[i] == props[1..][i - 1];
        rest
  }

  /** The first required property that is absent. */
  function FirstMissing(fields: seq<(string, Json)>, required: seq<string>): (r: Option<Violation>)
    ensures r.None? <==> forall i :: 0 <= i < |required| ==> Dicts.Get(fields, required[i]).Some?
    ensures r.Some? ==> (r.value.Missing? && r.value.key in required
      && Dicts.Get(fields, r.value.key).None?)
  {
    if |required| == 0 then None
    else if Dicts.Get(fields, required[0]).None? then Some(Missing(required[0]))
    else
      var rest := FirstMissing(fields, required[1..]);
      assert forall i :: 1 <= i < |required| ==> required[i] == required[1..][i - 1];
      rest
  }

  /** `jsonschema.validate`: nothing when the instance conforms, otherwise
      one of its faults. The keywords are checked in the order the schemas
      list them: `type`, then `properties`, then `required`. */
  function Validate(j: Json, schema: Schema): (r: Option<Violation>)
    ensures r.None? <==> Conforms(j, schema)
    ensures r.Some? ==> Genuine(j, schema, r.value)
  {
    if !j.JObject? then Some(NotAnObject)
    else
      match BadType(j.fields, schema.properties)
      case Some(v) => Some(v)
      case None => FirstMissing(j.fields, schema.required)
  }

  /** A conforming instance is an object holding every required key. */
  lemma RequiredPresent(j: Json, schema: Schema, k: string)
    requires Validate(j, schema).None? && k in schema.required
    ensures j.JObject? && Dicts.Get(j.fields, k).Some?
  {
    var i :| 0 <= i < |schema.required| && schema.required[i] == k;
  }

  /** A conforming instance holds a value of the declared type under every
      declared key that is also required. */
  lemma RequiredTyped(j: Json, schema: Schema, k: string, t: JsonType)
    requires Validate(j, schema).None? && k in schema.required && (k, t) in schema.properties
    ensures j.JObject? && Dicts.Get(j.fields, k).Some? && HasType(Dicts.Get(j.fields, k).value, t)
  {
    RequiredPresent(j, schema, k);
    var i :| 0 <= i < |schema.properties| && schema.properties[i] == (k, t);
  }

  /** The value of a required property of a conforming instance. */
  function RequiredValue(j: Json, schema: Schema, k: string): (r: Json)
    requires Validate(j, schema).None? && k in schema.required
    ensures j.JObject? && Dicts.Get(j.fields, k) == Some(r)
  {
    RequiredPresent(j, schema, k);
    Dicts.Get(j.fields, k).value
  }

  /** The text of a required string property of a conforming instance. */
  function RequiredString(j: Json, schema: Schema, k: string): (r: string)
    requires Validate(j, schema).None? && k in schema.required && (k, TString) in schema.properties
    ensures j.JObject? && Dicts.Get(j.fields, k) == Some(JString(r))
  {
    RequiredTyped(j, schema, k, TString);
    Dicts.Get(j.fields, k).value.s
  }

  /** The JSON body of an HTTP reply: `{'status': ..., 'message': ...}`.
      A rejected request carries the schema fault as its message. */
  datatype Message = Text(text: string) | Invalid(violation: Violation)

  datatype Reply = Reply(code: nat, status: string, message: Message)
}
