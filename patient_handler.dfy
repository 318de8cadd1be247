/**
 * The patient endpoints (internal/patient/handler.go): from the path id, the body and the
 * service's outcome to a status code and a body. Each service method is passed in as a
 * function, so that what a handler does without consulting the service can be stated.
 */
module PatientHandler {
  import opened Wrappers
  import opened Text
  import opened Gin
  import opened Binding
  import opened PatientModel
  import opened PatientRepository

  const MsgInvalidId := "Invalid patient ID"
  const MsgInvalidBody := "Invalid request body: "
  const MsgCreateFailed := "Failed to create patient: "
  const MsgUpdateFailed := "Failed to update patient: "
  const MsgMedicalFailed := "Failed to update patient medical info: "
  const MsgDeleteFailed := "Failed to delete patient: "
  const MsgSearchFailed := "Failed to search patients: "
  const MsgQueryRequired := "Query parameter 'q' is required"

  /**
   * A service error: 404 with the error's text when it is the `ErrPatientNotFound` sentinel
   * (`errors.Is`), otherwise 500 with `prefix` before the text.
   */
  function ServiceError<T>(e: RepoError, prefix: string): (reply: Reply<T>)
    ensures reply.status == StatusNotFound <==> e == ErrPatientNotFound
    ensures reply.status != StatusNotFound ==> reply == Reply(StatusInternalServerError, ErrorJson(prefix + ErrorText(e)))
    ensures reply.status == StatusNotFound ==> reply.body == ErrorJson("patient not found")
  {
    if e == ErrPatientNotFound then Reply(StatusNotFound, ErrorJson(ErrorText(e)))
    else Reply(StatusInternalServerError, ErrorJson(prefix + ErrorText(e)))
  }

  /** `CreatePatient`: a body that does not bind and a failing service both give 400. */
  function CreatePatient(body: JsonBody, create: CreatePatientRequest -> Result<Patient, RepoError>): (reply: Reply<Patient>)
    ensures reply.status == StatusCreated <==> BindCreate(body).Ok? && create(BindCreate(body).value).Ok?
    ensures reply.status == StatusCreated ==> reply.body == Json(create(BindCreate(body).value).value)
    ensures reply.status != StatusCreated ==> reply.status == StatusBadRequest && reply.body.ErrorJson?
  {
    match BindCreate(body)
    case Err(e) => Reply(StatusBadRequest, ErrorJson(MsgInvalidBody + BindErrorText(e)))
    case Ok(req) =>
      match create(req)
      case Err(err) => Reply(StatusBadRequest, ErrorJson(MsgCreateFailed + ErrorText(err)))
      case Ok(patient) => Reply(StatusCreated, Json(patient))
  }

  /** `GetPatient`. */
  function GetPatient(idParam: string, get: int -> Result<Patient, RepoError>): (reply: Reply<Patient>)
    ensures reply.status == StatusBadRequest <==> Atoi(idParam).None?
    ensures reply.status == StatusOK <==> Atoi(idParam).Some? && get(Atoi(idParam).value).Ok?
    ensures reply.status == StatusOK ==> reply.body == Json(get(Atoi(idParam).value).value)
    ensures reply.status == StatusNotFound <==> Atoi(idParam).Some? && get(Atoi(idParam).value) == Err(ErrPatientNotFound)
    ensures reply.status in {StatusOK, StatusBadRequest, StatusNotFound, StatusInternalServerError}
  {
    match Atoi(idParam)
    case None => Reply(StatusBadRequest, ErrorJson(MsgInvalidId))
    case Some(id) =>
      match get(id)
      case Err(err) => ServiceError(err, "")
      case Ok(patient) => Reply(StatusOK, Json(patient))
  }

  /** `ListPatients`: the service's list as it is, or 500. */
  function ListPatients(outcome: Result<seq<Patient>, RepoError>): (reply: Reply<seq<Patient>>)
    ensures reply.status == StatusOK <==> outcome.Ok?
    ensures outcome.Ok? ==> reply.body == Json(outcome.value)
    ensures outcome.Err? ==> reply == Reply(StatusInternalServerError, ErrorJson(ErrorText(outcome.error)))
  {
    match outcome
    case Err(err) => Reply(StatusInternalServerError, ErrorJson(ErrorText(err)))
    case Ok(patients) => Reply(StatusOK, Json(patients))
  }

  /** `UpdatePatient`: the id is checked before the body is bound. */
  function UpdatePatient(idParam: string, body: JsonBody,
                         update: (int, UpdatePatientRequest) -> Result<Patient, RepoError>): (reply: Reply<Patient>)
    ensures Atoi(idParam).None? ==> reply == Reply(StatusBadRequest, ErrorJson(MsgInvalidId))
    ensures reply.status == StatusBadRequest <==> Atoi(idParam).None? || BindUpdate(body).Err?
    ensures reply.status == StatusOK <==>
      Atoi(idParam).Some? && BindUpdate(body).Ok? && update(Atoi(idParam).value, BindUpdate(body).value).Ok?
    ensures reply.status == StatusOK ==> reply.body == Json(update(Atoi(idParam).value, BindUpdate(body).value).value)
    ensures reply.status == StatusNotFound <==>
      Atoi(idParam).Some? && BindUpdate(body).Ok? &&
      update(Atoi(idParam).value, BindUpdate(body).value) == Err(ErrPatientNotFound)
    ensures reply.status in {StatusOK, StatusBadRequest, StatusNotFound, StatusInternalServerError}
  {
    match Atoi(idParam)
    case None => Reply(StatusBadRequest, ErrorJson(MsgInvalidId))
    case Some(id) =>
      match BindUpdate(body)
      case Err(e) => Reply(StatusBadRequest, ErrorJson(MsgInvalidBody + BindErrorText(e)))
      case Ok(req) =>
        match update(id, req)
        case Err(err) => ServiceError(err, MsgUpdateFailed)
        case Ok(patient) => Reply(StatusOK, Json(patient))
  }

  /** `UpdatePatientMedical`: the same order of checks as `UpdatePatient`. */
  function UpdatePatientMedical(idParam: string, body: JsonBody,
                                update: (int, UpdatePatientMedicalRequest) -> Result<Patient, RepoError>): (reply: Reply<Patient>)
    ensures Atoi(idParam).None? ==> reply == Reply(StatusBadRequest, ErrorJson(MsgInvalidId))
    ensures reply.status == StatusBadRequest <==> Atoi(idParam).None? || BindMedical(body).Err?
    ensures reply.status == StatusOK <==>
      Atoi(idParam).Some? && BindMedical(body).Ok? && update(Atoi(idParam).value, BindMedical(body).value).Ok?
    ensures reply.status == StatusOK ==> reply.body == Json(update(Atoi(idParam).value, BindMedical(body).value).value)
    ensures reply.status == StatusNotFound <==>
      Atoi(idParam).Some? && BindMedical(body).Ok? &&
      update(Atoi(idParam).value, BindMedical(body).value) == Err(ErrPatientNotFound)
    ensures reply.status in {StatusOK, StatusBadRequest, StatusNotFound, StatusInternalServerError}
  {
    match Atoi(idParam)
    case None => Reply(StatusBadRequest, ErrorJson(MsgInvalidId))
    case Some(id) =>
      match BindMedical(body)
      case Err(e) => Reply(StatusBadRequest, ErrorJson(MsgInvalidBody + BindErrorText(e)))
      case Ok(req) =>
        match update(id, req)
        case Err(err) => ServiceError(err, MsgMedicalFailed)
        case Ok(patient) => Reply(StatusOK, Json(patient))
  }

  /** `DeletePatient`: 204 with no body on success. */
  function DeletePatient(idParam: string, delete: int -> Option<RepoError>): (reply: Reply<()>)
    ensures reply.status == StatusBadRequest <==> Atoi(idParam).None?
    ensures reply.status == StatusNoContent <==> Atoi(idParam).Some? && delete(Atoi(idParam).value).None?
    ensures reply.status == StatusNoContent ==> reply.body == NoBody
    ensures reply.status == StatusNotFound <==> Atoi(idParam).Some? && delete(Atoi(idParam).value) == Some(ErrPatientNotFound)
    ensures reply.status in {StatusNoContent, StatusBadRequest, StatusNotFound, StatusInternalServerError}
  {
    match Atoi(idParam)
    case None => Reply(StatusBadRequest, ErrorJson(MsgInvalidId))
    case Some(id) =>
      match delete(id)
      case Some(err) => ServiceError(err, MsgDeleteFailed)
      case None => Reply(StatusNoContent, NoBody)
  }

  /** `SearchPatients`: an empty `q` is refused before the service is called. */
  function SearchPatients(q: string, search: string -> Result<seq<Patient>, RepoError>): (reply: Reply<seq<Patient>>)
    ensures q == "" ==> reply == Reply(StatusBadRequest, ErrorJson(MsgQueryRequired))
    ensures reply.status == StatusOK <==> q != "" && search(q).Ok?
    ensures reply.status == StatusOK ==> reply.body == Json(search(q).value)
    ensures q != "" && search(q).Err? ==> reply.status == StatusInternalServerError
  {
    if q == "" then Reply(StatusBadRequest, ErrorJson(MsgQueryRequired))
    else match search(q)
      case Err(err) => Reply(StatusInternalServerError, ErrorJson(MsgSearchFailed + ErrorText(err)))
      case Ok(patients) => Reply(StatusOK, Json(patients))
  }

  // ---------------------------------------------------------------- properties

  /** An id that does not parse is answered with 400 whatever the body and the service would do. */
  lemma InvalidIdSkipsService(idParam: string, body1: JsonBody, body2: JsonBody,
                              get: int -> Result<Patient, RepoError>,
                              update: (int, UpdatePatientRequest) -> Result<Patient, RepoError>,
                              medical: (int, UpdatePatientMedicalRequest) -> Result<Patient, RepoError>,
                              delete: int -> Option<RepoError>)
    requires Atoi(idParam).None?
    ensures GetPatient(idParam, get) == Reply(StatusBadRequest, ErrorJson(MsgInvalidId))
    ensures UpdatePatient(idParam, body1, update) == UpdatePatient(idParam, body2, update)
    ensures UpdatePatientMedical(idParam, body1, medical) == UpdatePatientMedical(idParam, body2, medical)
    ensures DeletePatient(idParam, delete) == Reply(StatusBadRequest, ErrorJson(MsgInvalidId))
  {
  }

  /** Ids the front end writes into the path with `${id}` are read back as the same id. */
  lemma FormattedIdReachesService(id: int, get: int -> Result<Patient, RepoError>)
    requires MinInt64 <= id <= MaxInt64
    ensures GetPatient(FormatInt(id), get) ==
            (match get(id) case Err(err) => ServiceError(err, "") case Ok(p) => Reply(StatusOK, Json(p)))
  {
    AtoiOfFormatInt(id);
  }

  /**
   * Only the sentinel itself maps to 404: a different error value with the same text
   * "patient not found" is a 500.
   */
  lemma LookalikeErrorIsServerError(idParam: string, get: int -> Result<Patient, RepoError>)
    requires Atoi(idParam).Some? && get(Atoi(idParam).value) == Err(DbError("patient not found"))
    ensures GetPatient(idParam, get) == Reply(StatusInternalServerError, ErrorJson("patient not found"))
  {
    assert "" + ErrorText(DbError("patient not found")) == "patient not found";
  }

  /** An empty list is a 200 carrying the empty list. */
  lemma EmptyListIsOk()
    ensures ListPatients(Ok([])) == Reply(StatusOK, Json([]))
  {
  }

  /** A body such as `{"name":"John","age":30,"address":"123 St"}` is created with 201 and the service's record. */
  lemma CreateExample(create: CreatePatientRequest -> Result<Patient, RepoError>, saved: Patient)
    requires create(PatientDetails("John", 30, "123 St")) == Ok(saved)
    ensures CreatePatient(Object(map["name" := Str("John"), "age" := Number(30), "address" := Str("123 St")]), create) ==
            Reply(StatusCreated, Json(saved))
  {
    var m := map["name" := Str("John"), "age" := Number(30), "address" := Str("123 St")];
    assert DecodeDetails("CreatePatientRequest", m) == Ok(PatientDetails("John", 30, "123 St"));
  }
}
