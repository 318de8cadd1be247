/**
 * gin's `ShouldBindJSON`: the body is decoded into a Go struct by encoding/json and the
 * struct is then checked against its `binding` tags by the validator. Decoding leaves a
 * field at its zero value when the member is absent or `null`; a member of the wrong JSON
 * type is an error. The validator reports every failing field, in field order, and for each
 * field only its first failing tag: `required` fails on the zero value ("" or 0), `gt=0` on
 * a value not greater than zero.
 */
module Binding {
  import opened Wrappers
  import opened Text
  import opened Gin

  /** A request body: text that does not decode into an object (with the decoder's message), or an object's members. */
  datatype JsonBody = NotAnObject(detail: string) | Object(members: map<string, Value>)

  /** One failed tag on one field of the named struct. */
  datatype FieldError = FieldError(structName: string, field: string, tag: string)

  /** Why binding refused a body. */
  datatype BindError =
    | Syntax(detail: string)
    | Mistyped(structName: string, key: string, kind: string, goType: string)
    | Invalid(failures: seq<FieldError>)

  /** The JSON type named in a decoding error. */
  function KindName(v: Value): string {
    match v
    case Str(_) => "string"
    case Bool(_) => "bool"
    case Nil => "null"
    case _ => "number"
  }

  /** Decoding member `key` into a Go `string`: absent or `null` gives "", a string is taken, any other type fails. */
  function StringMember(members: map<string, Value>, key: string): (r: Option<string>)
    ensures r.None? ==> key in members
    ensures key !in members ==> r == Some("")
  {
    if key !in members then Some("")
    else match members[key]
      case Nil => Some("")
      case Str(s) => Some(s)
      case _ => None
  }

  /** Decoding member `key` into a Go `int`: absent or `null` gives 0, an integral number in the int64 range is taken. */
  function IntMember(members: map<string, Value>, key: string): (r: Option<int>)
    ensures r.None? ==> key in members
    ensures r.Some? ==> MinInt64 <= r.value <= MaxInt64
    ensures key !in members ==> r == Some(0)
  {
    if key !in members then Some(0)
    else match members[key]
      case Nil => Some(0)
      case Number(n) => if MinInt64 <= n <= MaxInt64 then Some(n) else None
      case _ => None
  }

  /** Decoding member `key` into a Go `*string`: absent or `null` gives nil, a string gives a pointer to it. */
  function NullableStringMember(members: map<string, Value>, key: string): (r: Option<Option<string>>)
    ensures r.None? ==> key in members
    ensures key !in members ==> r == Some(None)
  {
    if key !in members then Some(None)
    else match members[key]
      case Nil => Some(None)
      case Str(s) => Some(Some(s))
      case _ => None
  }

  function MistypedMember(structName: string, members: map<string, Value>, key: string, goType: string): BindError
    requires key in members
  {
    Mistyped(structName, key, KindName(members[key]), goType)
  }

  /** The `required` tag on a string field. */
  function RequiredString(structName: string, field: string, s: string): (f: seq<FieldError>)
    ensures f == [] <==> s != ""
  {
    if s == "" then [FieldError(structName, field, "required")] else []
  }

  /** The tags `required,gt=0` on an int field: 0 fails `required`, a negative value fails `gt`. */
  function RequiredPositive(structName: string, field: string, n: int): (f: seq<FieldError>)
    ensures f == [] <==> n > 0
    ensures n < 0 ==> f == [FieldError(structName, field, "gt")]
  {
    if n == 0 then [FieldError(structName, field, "required")]
    else if n <= 0 then [FieldError(structName, field, "gt")]
    else []
  }

  /** The validator's verdict on a decoded struct. */
  function Validated<T>(decoded: T, failures: seq<FieldError>): (r: Result<T, BindError>)
    ensures r.Ok? <==> failures == []
    ensures r.Ok? ==> r.value == decoded
  {
    if failures == [] then Ok(decoded) else Err(Invalid(failures))
  }

  function JoinLines(lines: seq<string>): string {
    if lines == [] then ""
    else if |lines| == 1 then lines[0]
    else lines[0] + "\n" + JoinLines(lines[1..])
  }

  function FieldErrorText(e: FieldError): string {
    "Key: '" + e.structName + "." + e.field + "' Error:Field validation for '" + e.field +
    "' failed on the '" + e.tag + "' tag"
  }

  function FieldErrorTexts(failures: seq<FieldError>): (texts: seq<string>)
    ensures |texts| == |failures|
  {
    if failures == [] then [] else [FieldErrorText(failures[0])] + FieldErrorTexts(failures[1..])
  }

  /** `err.Error()` for a binding error, as the handlers append it to their messages. */
  function BindErrorText(e: BindError): string {
    match e
    case Syntax(detail) => detail
    case Mistyped(structName, key, kind, goType) =>
      "json: cannot unmarshal " + kind + " into Go struct field " + structName + "." + key + " of type " + goType
    case Invalid(failures) => JoinLines(FieldErrorTexts(failures))
  }
}
