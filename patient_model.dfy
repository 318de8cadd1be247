/**
 * The patient record and the request bodies of the patient endpoints
 * (internal/patient/model.go), with their binding rules and the JSON form of a record.
 */
module PatientModel {
  import opened Wrappers
  import opened Text
  import opened Gin
  import opened Binding
  import ZodSchemas

  /**
   * A row of the `patients` table. Diagnosis and notes are nullable columns; the two
   * timestamps are given in seconds.
   */
  datatype Patient = Patient(
    id: int, name: string, age: int, address: string,
    diagnosis: Option<string>, notes: Option<string>,
    createdAt: int, updatedAt: int)

  /** Go's zero `time.Time`, earlier than any timestamp the database writes. */
  const ZeroTime: int := 0

  /** The three fields both `CreatePatientRequest` and `UpdatePatientRequest` carry. */
  datatype PatientDetails = PatientDetails(name: string, age: int, address: string)

  type CreatePatientRequest = PatientDetails
  type UpdatePatientRequest = PatientDetails

  datatype UpdatePatientMedicalRequest = UpdatePatientMedicalRequest(diagnosis: string, notes: string)

  /** The binding rules on name, age and address: `required`, `required,gt=0`, `required`. */
  predicate DetailsValid(d: PatientDetails) {
    d.name != "" && d.age > 0 && d.address != ""
  }

  function DetailsFailures(structName: string, d: PatientDetails): (f: seq<FieldError>)
    ensures f == [] <==> DetailsValid(d)
  {
    RequiredString(structName, "Name", d.name) +
    RequiredPositive(structName, "Age", d.age) +
    RequiredString(structName, "Address", d.address)
  }

  /** Decoding the three members; a member of the wrong JSON type is reported in field order. */
  function DecodeDetails(structName: string, m: map<string, Value>): (r: Result<PatientDetails, BindError>)
    ensures r.Ok? <==> StringMember(m, "name").Some? && IntMember(m, "age").Some? && StringMember(m, "address").Some?
    ensures r.Ok? ==> r.value == PatientDetails(StringMember(m, "name").value, IntMember(m, "age").value,
                                                StringMember(m, "address").value)
  {
    if StringMember(m, "name").None? then Err(MistypedMember(structName, m, "name", "string"))
    else if IntMember(m, "age").None? then Err(MistypedMember(structName, m, "age", "int"))
    else if StringMember(m, "address").None? then Err(MistypedMember(structName, m, "address", "string"))
    else Ok(PatientDetails(StringMember(m, "name").value, IntMember(m, "age").value, StringMember(m, "address").value))
  }

  function BindDetails(structName: string, body: JsonBody): (r: Result<PatientDetails, BindError>)
    ensures r.Ok? <==> body.Object? && DecodeDetails(structName, body.members).Ok? &&
                       DetailsValid(DecodeDetails(structName, body.members).value)
    ensures r.Ok? ==> r.value == DecodeDetails(structName, body.members).value
  {
    match body
    case NotAnObject(detail) => Err(Syntax(detail))
    case Object(m) =>
      match DecodeDetails(structName, m)
      case Err(e) => Err(e)
      case Ok(d) => Validated(d, DetailsFailures(structName, d))
  }

  /** `ShouldBindJSON` into a `CreatePatientRequest`. */
  function BindCreate(body: JsonBody): (r: Result<CreatePatientRequest, BindError>)
    ensures r.Ok? ==> body.Object? && DetailsValid(r.value)
  {
    BindDetails("CreatePatientRequest", body)
  }

  /** `ShouldBindJSON` into an `UpdatePatientRequest`. */
  function BindUpdate(body: JsonBody): (r: Result<UpdatePatientRequest, BindError>)
    ensures r.Ok? ==> body.Object? && DetailsValid(r.value)
  {
    BindDetails("UpdatePatientRequest", body)
  }

  /** A medical update needs a non-empty diagnosis; notes may be empty or absent. */
  function BindMedical(body: JsonBody): (r: Result<UpdatePatientMedicalRequest, BindError>)
    ensures r.Ok? <==> body.Object? && StringMember(body.members, "diagnosis").Some? &&
                       StringMember(body.members, "diagnosis").value != "" &&
                       StringMember(body.members, "notes").Some?
    ensures r.Ok? ==> r.value.diagnosis == StringMember(body.members, "diagnosis").value &&
                      r.value.notes == StringMember(body.members, "notes").value
  {
    match body
    case NotAnObject(detail) => Err(Syntax(detail))
    case Object(m) =>
      if StringMember(m, "diagnosis").None? then Err(MistypedMember("UpdatePatientMedicalRequest", m, "diagnosis", "string"))
      else if StringMember(m, "notes").None? then Err(MistypedMember("UpdatePatientMedicalRequest", m, "notes", "string"))
      else
        var req := UpdatePatientMedicalRequest(StringMember(m, "diagnosis").value, StringMember(m, "notes").value);
        Validated(req, RequiredString("UpdatePatientMedicalRequest", "Diagnosis", req.diagnosis))
  }

  /** A create body and an update body are accepted by the same rules and decode to the same fields. */
  lemma UpdateRulesMatchCreate(body: JsonBody)
    ensures BindCreate(body).Ok? <==> BindUpdate(body).Ok?
    ensures BindCreate(body).Ok? ==> BindCreate(body).value == BindUpdate(body).value
  {
  }

  /** Zero and negative ages fail on different tags. */
  lemma AgeTags(name: string, address: string)
    requires name != "" && address != ""
    ensures BindCreate(Object(map["name" := Str(name), "age" := Number(0), "address" := Str(address)])) ==
            Err(Invalid([FieldError("CreatePatientRequest", "Age", "required")]))
    ensures BindCreate(Object(map["name" := Str(name), "age" := Number(-3), "address" := Str(address)])) ==
            Err(Invalid([FieldError("CreatePatientRequest", "Age", "gt")]))
  {
    var m0 := map["name" := Str(name), "age" := Number(0), "address" := Str(address)];
    assert DecodeDetails("CreatePatientRequest", m0) == Ok(PatientDetails(name, 0, address));
    assert DetailsFailures("CreatePatientRequest", PatientDetails(name, 0, address)) ==
           [FieldError("CreatePatientRequest", "Age", "required")];
    var m1 := map["name" := Str(name), "age" := Number(-3), "address" := Str(address)];
    assert DecodeDetails("CreatePatientRequest", m1) == Ok(PatientDetails(name, -3, address));
    assert DetailsFailures("CreatePatientRequest", PatientDetails(name, -3, address)) ==
           [FieldError("CreatePatientRequest", "Age", "gt")];
  }

  // ------------------------------------------------------- the client's patient form

  /** The body the patient form sends (web/lib/api.ts posts the form fields as they are); the phone is ignored by the server. */
  function FormBody(f: ZodSchemas.PatientForm): JsonBody {
    Object(map["name" := Str(f.name), "age" := Number(f.age), "phone" := Str(f.phone), "address" := Str(f.address)])
  }

  /** A form the client accepts binds on the server, unless its age is 0. */
  lemma {:induction false} ClientValidFormBinds(f: ZodSchemas.PatientForm)
    requires ZodSchemas.PatientIssues(f) == []
    ensures BindCreate(FormBody(f)).Ok? <==> f.age != 0
  {
    var m := FormBody(f).members;
    assert StringMember(m, "name") == Some(f.name);
    assert IntMember(m, "age") == Some(f.age);
    assert StringMember(m, "address") == Some(f.address);
    assert ZodSchemas.Utf16Length(f.name) >= 2 && ZodSchemas.Utf16Length(f.address) >= 5;
    assert f.name != "" && f.address != "";
  }

  // ------------------------------------------------------------- JSON of a record

  /** The JSON object of a record: every field is present, a nil diagnosis or notes is `null`. */
  function PatientJson(p: Patient): (j: map<string, Value>)
    ensures j.Keys == {"id", "name", "age", "address", "diagnosis", "notes", "created_at", "updated_at"}
    ensures j["diagnosis"] == Nil <==> p.diagnosis.None?
    ensures j["notes"] == Nil <==> p.notes.None?
    ensures j["id"] == Int(p.id) && j["name"] == Str(p.name) && j["age"] == Int(p.age) && j["address"] == Str(p.address)
  {
    map["id" := Int(p.id), "name" := Str(p.name), "age" := Int(p.age), "address" := Str(p.address),
        "diagnosis" := (match p.diagnosis case None => Nil case Some(d) => Str(d)),
        "notes" := (match p.notes case None => Nil case Some(n) => Str(n)),
        "created_at" := Time(p.createdAt), "updated_at" := Time(p.updatedAt)]
  }
}
