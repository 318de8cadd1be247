/**
 * The document endpoints (internal/document/handler.go). The multipart form is given by its
 * file fields, by field name; each service method is passed in as a function.
 */
module DocumentHandler {
  import opened Wrappers
  import opened Text
  import opened Gin
  import opened DocumentStore
  import opened DocumentService

  const MsgInvalidPatientId := "Invalid patient ID"
  const MsgInvalidDocumentId := "Invalid document ID"
  const MsgFileRequired := "File 'document' is required in form-data"
  const MsgUploadFailed := "Failed to upload document: "
  const MsgListFailed := "Failed to retrieve documetns: "
  const MsgDeleteFailed := "Failed to delete document: "

  /** The form field the file must be sent under. */
  const FileField := "document"

  /** `UploadDocument`: the patient id, then the file field, then the service. */
  function UploadDocument(idParam: string, files: map<string, FileHeader>,
                          upload: (int, FileHeader) -> Result<Document, DocError>): (reply: Reply<Document>)
    ensures Atoi(idParam).None? ==> reply == Reply(StatusBadRequest, ErrorJson(MsgInvalidPatientId))
    ensures reply.status == StatusBadRequest <==> Atoi(idParam).None? || FileField !in files
    ensures reply.status == StatusCreated <==>
      Atoi(idParam).Some? && FileField in files && upload(Atoi(idParam).value, files[FileField]).Ok?
    ensures reply.status == StatusCreated ==> reply.body == Json(upload(Atoi(idParam).value, files[FileField]).value)
    ensures reply.status in {StatusCreated, StatusBadRequest, StatusInternalServerError}
  {
    match Atoi(idParam)
    case None => Reply(StatusBadRequest, ErrorJson(MsgInvalidPatientId))
    case Some(patientId) =>
      if FileField !in files then Reply(StatusBadRequest, ErrorJson(MsgFileRequired))
      else match upload(patientId, files[FileField])
        case Err(err) => Reply(StatusInternalServerError, ErrorJson(MsgUploadFailed + ErrorText(err)))
        case Ok(doc) => Reply(StatusCreated, Json(doc))
  }

  /** `GetPatientDocuments`. */
  function GetPatientDocuments(idParam: string, list: int -> Result<seq<Document>, DocError>): (reply: Reply<seq<Document>>)
    ensures reply.status == StatusBadRequest <==> Atoi(idParam).None?
    ensures reply.status == StatusOK <==> Atoi(idParam).Some? && list(Atoi(idParam).value).Ok?
    ensures reply.status == StatusOK ==> reply.body == Json(list(Atoi(idParam).value).value)
    ensures Atoi(idParam).Some? && list(Atoi(idParam).value).Err? ==>
      reply == Reply(StatusInternalServerError, ErrorJson(MsgListFailed + ErrorText(list(Atoi(idParam).value).error)))
  {
    match Atoi(idParam)
    case None => Reply(StatusBadRequest, ErrorJson(MsgInvalidPatientId))
    case Some(patientId) =>
      match list(patientId)
      case Err(err) => Reply(StatusInternalServerError, ErrorJson(MsgListFailed + ErrorText(err)))
      case Ok(docs) => Reply(StatusOK, Json(docs))
  }

  /** `DeleteDocument`: 404 only for the `ErrDocumentNotFound` sentinel, 204 with no body on success. */
  function DeleteDocument(docIdParam: string, delete: int -> Option<DocError>): (reply: Reply<()>)
    ensures reply.status == StatusBadRequest <==> Atoi(docIdParam).None?
    ensures reply.status == StatusNoContent <==> Atoi(docIdParam).Some? && delete(Atoi(docIdParam).value).None?
    ensures reply.status == StatusNoContent ==> reply.body == NoBody
    ensures reply.status == StatusNotFound <==>
      Atoi(docIdParam).Some? && delete(Atoi(docIdParam).value) == Some(ErrDocumentNotFound)
    ensures reply.status == StatusNotFound ==> reply.body == ErrorJson("document not found")
    ensures reply.status in {StatusNoContent, StatusBadRequest, StatusNotFound, StatusInternalServerError}
  {
    match Atoi(docIdParam)
    case None => Reply(StatusBadRequest, ErrorJson(MsgInvalidDocumentId))
    case Some(id) =>
      match delete(id)
      case Some(ErrDocumentNotFound) => Reply(StatusNotFound, ErrorJson(ErrorText(ErrDocumentNotFound)))
      case Some(err) => Reply(StatusInternalServerError, ErrorJson(MsgDeleteFailed + ErrorText(err)))
      case None => Reply(StatusNoContent, NoBody)
  }

  // ---------------------------------------------------------------- properties

  /** A file sent under any other field name, such as `file`, is refused with 400 and the service is not consulted. */
  lemma OtherFieldNameRefused(idParam: string, f: FileHeader, upload: (int, FileHeader) -> Result<Document, DocError>)
    requires Atoi(idParam).Some?
    ensures UploadDocument(idParam, map["file" := f], upload) == Reply(StatusBadRequest, ErrorJson(MsgFileRequired))
  {
    assert FileField !in map["file" := f];
  }

  /** With the listing query as written, every valid listing request is answered 500 with the database's message. */
  lemma ListingAsWrittenFails(idParam: string)
    requires Atoi(idParam).Some?
    ensures GetPatientDocuments(idParam, _ => Err(DbError(UnknownColumnError))) ==
            Reply(StatusInternalServerError, ErrorJson(MsgListFailed + UnknownColumnError))
  {
  }

  /** With the delete statement as written, deleting a document that exists is answered 500 instead of 204. */
  lemma DeleteAsWrittenIsServerError(docIdParam: string)
    requires Atoi(docIdParam).Some?
    ensures DeleteDocument(docIdParam, _ => Some(DbError(DelectSyntaxError))) ==
            Reply(StatusInternalServerError, ErrorJson(MsgDeleteFailed + DelectSyntaxError))
  {
  }
}
