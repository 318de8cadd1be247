/**
 * The prescription endpoints (internal/prescription/handler.go). The doctor's id is whatever
 * the request context holds under the user-id key (`c.Get`), given here as an input: absent,
 * or a dynamically typed value that must be a Go `int`. The service is passed in as a
 * function; its errors are given by their text.
 */
module PrescriptionHandler {
  import opened Wrappers
  import opened Text
  import opened Gin
  import opened Binding
  import opened PrescriptionModel

  const MsgInvalidPatientId := "Invalid patient ID format"
  const MsgUserIdMissing := "User ID not found in token"
  const MsgUserIdMistyped := "User ID in context is not of expected type"
  const MsgInvalidBody := "Invalid request body: "
  const MsgCreateFailed := "Failed to create prescription: "
  const MsgListFailed := "Failed to retrieve prescriptions: "

  /**
   * `CreatePrescription`: the patient id, then the user id, then the body, then the service,
   * which is handed the patient id from the path and the doctor id from the context.
   */
  function CreatePrescription(idParam: string, userId: Option<Value>, body: JsonBody,
                              create: (int, int, CreateRequest) -> Result<Prescription, string>): (reply: Reply<Prescription>)
    ensures Atoi(idParam).None? ==> reply == Reply(StatusBadRequest, ErrorJson(MsgInvalidPatientId))
    ensures Atoi(idParam).Some? && userId.None? ==> reply == Reply(StatusForbidden, ErrorJson(MsgUserIdMissing))
    ensures Atoi(idParam).Some? && userId.Some? && !userId.value.Int? ==>
      reply == Reply(StatusInternalServerError, ErrorJson(MsgUserIdMistyped))
    ensures reply.status == StatusBadRequest <==>
      Atoi(idParam).None? || (userId.Some? && userId.value.Int? && BindCreateRequest(body).Err?)
    ensures reply.status == StatusCreated <==>
      Atoi(idParam).Some? && userId.Some? && userId.value.Int? && BindCreateRequest(body).Ok? &&
      create(Atoi(idParam).value, userId.value.i, BindCreateRequest(body).value).Ok?
    ensures reply.status == StatusCreated ==>
      reply.body == Json(create(Atoi(idParam).value, userId.value.i, BindCreateRequest(body).value).value)
    ensures reply.status == StatusForbidden <==> Atoi(idParam).Some? && userId.None?
    ensures Atoi(idParam).Some? && userId.Some? && userId.value.Int? && BindCreateRequest(body).Ok? &&
            create(Atoi(idParam).value, userId.value.i, BindCreateRequest(body).value).Err? ==>
      reply == Reply(StatusInternalServerError,
                     ErrorJson(MsgCreateFailed + create(Atoi(idParam).value, userId.value.i, BindCreateRequest(body).value).error))
    ensures reply.status in {StatusCreated, StatusBadRequest, StatusForbidden, StatusInternalServerError}
  {
    match Atoi(idParam)
    case None => Reply(StatusBadRequest, ErrorJson(MsgInvalidPatientId))
    case Some(patientId) =>
      match userId
      case None => Reply(StatusForbidden, ErrorJson(MsgUserIdMissing))
      case Some(v) =>
        if !v.Int? then Reply(StatusInternalServerError, ErrorJson(MsgUserIdMistyped))
        else match BindCreateRequest(body)
          case Err(e) => Reply(StatusBadRequest, ErrorJson(MsgInvalidBody + BindErrorText(e)))
          case Ok(req) =>
            match create(patientId, v.i, req)
            case Err(message) => Reply(StatusInternalServerError, ErrorJson(MsgCreateFailed + message))
            case Ok(p) => Reply(StatusCreated, Json(p))
  }

  /** `GetPatientPrescriptions`. */
  function GetPatientPrescriptions(idParam: string, list: int -> Result<seq<Prescription>, string>): (reply: Reply<seq<Prescription>>)
    ensures reply.status == StatusBadRequest <==> Atoi(idParam).None?
    ensures reply.status == StatusOK <==> Atoi(idParam).Some? && list(Atoi(idParam).value).Ok?
    ensures reply.status == StatusOK ==> reply.body == Json(list(Atoi(idParam).value).value)
    ensures Atoi(idParam).Some? && list(Atoi(idParam).value).Err? ==>
      reply == Reply(StatusInternalServerError, ErrorJson(MsgListFailed + list(Atoi(idParam).value).error))
  {
    match Atoi(idParam)
    case None => Reply(StatusBadRequest, ErrorJson(MsgInvalidPatientId))
    case Some(patientId) =>
      match list(patientId)
      case Err(message) => Reply(StatusInternalServerError, ErrorJson(MsgListFailed + message))
      case Ok(ps) => Reply(StatusOK, Json(ps))
  }

  // ---------------------------------------------------------------- properties

  /** A request without a user id in its context is refused with 403 whatever its body, even one that does not bind. */
  lemma MissingUserIdBeforeBody(idParam: string, body1: JsonBody, body2: JsonBody,
                                create: (int, int, CreateRequest) -> Result<Prescription, string>)
    requires Atoi(idParam).Some?
    ensures CreatePrescription(idParam, None, body1, create) == CreatePrescription(idParam, None, body2, create)
    ensures CreatePrescription(idParam, None, body1, create).status == StatusForbidden
  {
  }

  /** A `doctor_id` member in the body is ignored: the doctor is the one the context names. */
  lemma DoctorIdFromContext(idParam: string, doctorId: int, members: map<string, Value>, claimed: Value,
                            create: (int, int, CreateRequest) -> Result<Prescription, string>)
    ensures CreatePrescription(idParam, Some(Int(doctorId)), Object(members["doctor_id" := claimed]), create) ==
            CreatePrescription(idParam, Some(Int(doctorId)), Object(members - {"doctor_id"}), create)
  {
    var m1, m2 := members["doctor_id" := claimed], members - {"doctor_id"};
    assert forall k :: k != "doctor_id" ==> (k in m1 <==> k in m2) && (k in m1 ==> m1[k] == m2[k]);
    assert StringMember(m1, "medication") == StringMember(m2, "medication");
    assert StringMember(m1, "dosage") == StringMember(m2, "dosage");
    assert StringMember(m1, "frequency") == StringMember(m2, "frequency");
    assert NullableStringMember(m1, "notes") == NullableStringMember(m2, "notes");
    assert BindCreateRequest(Object(m1)) == BindCreateRequest(Object(m2));
  }
}
