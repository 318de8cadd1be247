/**
 * The prescription record and the body of `POST /patients/:id/prescriptions`
 * (internal/prescription/model.go): binding rules and the JSON form of a record, whose
 * `notes` member is omitted when the notes are nil.
 */
module PrescriptionModel {
  import opened Wrappers
  import opened Gin
  import opened Binding
  import ZodSchemas

  datatype Prescription = Prescription(
    id: int, patientId: int, doctorId: int,
    medication: string, dosage: string, frequency: string,
    notes: Option<string>, createdAt: int)

  datatype CreateRequest = CreateRequest(medication: string, dosage: string, frequency: string, notes: Option<string>)

  /** Medication, dosage and frequency are `required`; the notes pointer carries no tag. */
  function BindCreateRequest(body: JsonBody): (r: Result<CreateRequest, BindError>)
    ensures r.Ok? <==>
      body.Object? &&
      StringMember(body.members, "medication").Some? && StringMember(body.members, "medication").value != "" &&
      StringMember(body.members, "dosage").Some? && StringMember(body.members, "dosage").value != "" &&
      StringMember(body.members, "frequency").Some? && StringMember(body.members, "frequency").value != "" &&
      NullableStringMember(body.members, "notes").Some?
    ensures r.Ok? ==>
      r.value.medication == StringMember(body.members, "medication").value &&
      r.value.dosage == StringMember(body.members, "dosage").value &&
      r.value.frequency == StringMember(body.members, "frequency").value &&
      r.value.notes == NullableStringMember(body.members, "notes").value
  {
    match body
    case NotAnObject(detail) => Err(Syntax(detail))
    case Object(m) =>
      if StringMember(m, "medication").None? then Err(MistypedMember("CreateRequest", m, "medication", "string"))
      else if StringMember(m, "dosage").None? then Err(MistypedMember("CreateRequest", m, "dosage", "string"))
      else if StringMember(m, "frequency").None? then Err(MistypedMember("CreateRequest", m, "frequency", "string"))
      else if NullableStringMember(m, "notes").None? then Err(MistypedMember("CreateRequest", m, "notes", "*string"))
      else
        var req := CreateRequest(StringMember(m, "medication").value, StringMember(m, "dosage").value,
                                 StringMember(m, "frequency").value, NullableStringMember(m, "notes").value);
        Validated(req, RequiredString("CreateRequest", "Medication", req.medication) +
                       RequiredString("CreateRequest", "Dosage", req.dosage) +
                       RequiredString("CreateRequest", "Frequency", req.frequency))
  }

  /** Absent notes and `null` notes both bind, as a nil pointer. */
  lemma NotesAreOptional(medication: string, dosage: string, frequency: string)
    requires medication != "" && dosage != "" && frequency != ""
    ensures BindCreateRequest(Object(map["medication" := Str(medication), "dosage" := Str(dosage),
                                         "frequency" := Str(frequency)])) ==
            Ok(CreateRequest(medication, dosage, frequency, None))
    ensures BindCreateRequest(Object(map["medication" := Str(medication), "dosage" := Str(dosage),
                                         "frequency" := Str(frequency), "notes" := Nil])) ==
            Ok(CreateRequest(medication, dosage, frequency, None))
  {
    var m := map["medication" := Str(medication), "dosage" := Str(dosage), "frequency" := Str(frequency)];
    assert StringMember(m, "medication") == Some(medication);
    var n := m["notes" := Nil];
    assert StringMember(n, "medication") == Some(medication);
  }

  /** The JSON object of a record: `notes` is present exactly when the pointer is not nil. */
  function PrescriptionJson(p: Prescription): (j: map<string, Value>)
    ensures "notes" in j <==> p.notes.Some?
    ensures p.notes.Some? ==> j["notes"] == Str(p.notes.value)
    ensures j.Keys - {"notes"} == {"id", "patient_id", "doctor_id", "medication", "dosage", "frequency", "created_at"}
  {
    var base := map["id" := Int(p.id), "patient_id" := Int(p.patientId), "doctor_id" := Int(p.doctorId),
                    "medication" := Str(p.medication), "dosage" := Str(p.dosage), "frequency" := Str(p.frequency),
                    "created_at" := Time(p.createdAt)];
    match p.notes
    case None => base
    case Some(n) => base["notes" := Str(n)]
  }

  /** Only a nil pointer is omitted: empty notes are still written out. */
  lemma EmptyNotesAreWritten(p: Prescription)
    requires p.notes == Some("")
    ensures PrescriptionJson(p)["notes"] == Str("")
  {
  }

  /**
   * The body the prescription form sends: its fields, with `notes` only when the form holds
   * a value for it (`JSON.stringify` drops an undefined member). The form starts `notes` at
   * `""`, so an untouched notes field is sent as the empty string.
   */
  function FormBody(f: ZodSchemas.PrescriptionForm): JsonBody {
    var m := map["medication" := Str(f.medication), "dosage" := Str(f.dosage), "frequency" := Str(f.frequency)];
    Object(match f.notes case None => m case Some(n) => m["notes" := Str(n)])
  }

  /** Every form the client accepts binds on the server, with the same fields. */
  lemma {:induction false} ClientValidFormBinds(f: ZodSchemas.PrescriptionForm)
    requires ZodSchemas.PrescriptionIssues(f) == []
    ensures BindCreateRequest(FormBody(f)) == Ok(CreateRequest(f.medication, f.dosage, f.frequency, f.notes))
  {
    var m := FormBody(f).members;
    assert StringMember(m, "medication") == Some(f.medication);
    assert StringMember(m, "dosage") == Some(f.dosage);
    assert StringMember(m, "frequency") == Some(f.frequency);
    assert NullableStringMember(m, "notes") == Some(f.notes);
  }
}
