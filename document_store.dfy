/**
 * The two stores a patient document lives in: its metadata row in the `patient_documents`
 * table (internal/document/repository.go, held in memory like the patient table) and the file
 * itself in the cloud media store, keyed by public id. Cloudinary's answer to an upload is an
 * input, as a function of the upload parameters; each database statement and each destroy
 * may fail (`fault`), in which case nothing changes.
 */
module DocumentStore {
  import opened Wrappers
  import opened Text
  import opened Gin

  /**
   * A document's metadata (internal/document/model.go). `uploadedAt` is a count of seconds
   * on the database clock.
   */
  datatype Document = Document(id: int, patientId: int, fileName: string, fileUrl: string,
                               publicId: string, mimeType: string, uploadedAt: int)

  /** The sentinel `ErrDocumentNotFound`, or an error from opening the file, from the cloud, or from the database. */
  datatype DocError =
    | ErrDocumentNotFound
    | OpenFailed(message: string)
    | UploadFailed(message: string)
    | DbError(message: string)

  function ErrorText(e: DocError): string {
    match e
    case ErrDocumentNotFound => "document not found"
    case OpenFailed(message) => message
    case UploadFailed(message) => message
    case DbError(message) => message
  }

  /**
   * The JSON form of a document: the public id is tagged `json:"-"` and never leaves the
   * server; the ids are JSON numbers and `uploaded_at` a timestamp.
   */
  function DocumentJson(d: Document): (j: map<string, Value>)
    ensures j.Keys == {"id", "patient_id", "file_name", "file_url", "mime_type", "uploaded_at"}
    ensures "public_id" !in j
    ensures j["id"] == Int(d.id) && j["patient_id"] == Int(d.patientId)
    ensures j["file_name"] == Str(d.fileName) && j["file_url"] == Str(d.fileUrl) && j["mime_type"] == Str(d.mimeType)
    ensures j["uploaded_at"] == Time(d.uploadedAt)
  {
    map["id" := Int(d.id), "patient_id" := Int(d.patientId), "file_name" := Str(d.fileName),
        "file_url" := Str(d.fileUrl), "mime_type" := Str(d.mimeType), "uploaded_at" := Time(d.uploadedAt)]
  }

  // ----------------------------------------------------------------- the cloud

  /** What the service asks the cloud store for. */
  datatype UploadParams = UploadParams(publicId: string, folder: string, resourceType: string)

  /** The cloud store's answer to a successful upload. */
  datatype Uploaded = Uploaded(secureUrl: string, publicId: string)

  /** The cloud media store: the URL of every stored asset, by public id. */
  class CloudStore {
    var assets: map<string, string>

    constructor ()
      ensures assets == map[]
    {
      assets := map[];
    }

    /**
     * An upload with `params`: `respond` says how the store answers. A success stores the
     * file under the public id it reports, replacing any asset already there.
     */
    method Upload(params: UploadParams, respond: UploadParams -> Result<Uploaded, string>) returns (r: Result<Uploaded, string>)
      modifies this
      ensures r == respond(params)
      ensures r.Ok? ==> assets == old(assets)[r.value.publicId := r.value.secureUrl]
      ensures r.Err? ==> unchanged(this)
    {
      r := respond(params);
      if r.Ok? {
        assets := assets[r.value.publicId := r.value.secureUrl];
      }
    }

    /** `Destroy`: removes the asset under `publicId`, if there is one; a failure changes nothing. */
    method Destroy(publicId: string, fault: Option<string>) returns (err: Option<string>)
      modifies this
      ensures err == fault
      ensures fault.Some? ==> assets == old(assets)
      ensures fault.None? ==> assets == old(assets) - {publicId}
    {
      if fault.Some? {
        return fault;
      }
      assets := assets - {publicId};
      err := None;
    }
  }

  // -------------------------------------------------------------- the database

  predicate KeyedById(rows: map<int, Document>) {
    forall id :: id in rows ==> rows[id].id == id
  }

  /**
   * `SELECT id, patient_id, file_name, file_url, mime_type, uploaded_at ... WHERE patient_id = $1`,
   * newest first: the rows of the patient with ids in `1..k`, highest id first. `public_id`
   * is not selected, so it comes back empty.
   */
  function PatientListing(rows: map<int, Document>, patientId: int, k: int): (r: seq<Document>)
    requires KeyedById(rows)
    ensures forall i :: 0 <= i < |r| ==>
      0 < r[i].id <= k && r[i].id in rows && r[i] == rows[r[i].id].(publicId := "") && r[i].patientId == patientId
    ensures forall id :: 0 < id <= k && id in rows && rows[id].patientId == patientId ==> rows[id].(publicId := "") in r
    ensures forall i, j :: 0 <= i < j < |r| ==> r[i].id > r[j].id
    decreases k
  {
    if k <= 0 then []
    else if k in rows && rows[k].patientId == patientId then [rows[k].(publicId := "")] + PatientListing(rows, patientId, k - 1)
    else PatientListing(rows, patientId, k - 1)
  }

  /** The error PostgreSQL gives for the listing as written: it orders by a column the table does not have. */
  const UnknownColumnError := "pq: column \"uploaded_by\" does not exist"

  /** The error PostgreSQL gives for the delete statement as written, whose verb is misspelt. */
  const DelectSyntaxError := "pq: syntax error at or near \"DELECT\""

  class Repository {
    var rows: map<int, Document>
    var nextId: int
    var clock: int

    /** Ids come from the serial, every row sits under its own id, and a higher id was uploaded later. */
    ghost predicate Valid()
      reads this
    {
      nextId >= 1 && KeyedById(rows) &&
      (forall id :: id in rows ==> 1 <= id < nextId && rows[id].uploadedAt < clock) &&
      (forall a, b :: a in rows && b in rows && a < b ==> rows[a].uploadedAt < rows[b].uploadedAt)
    }

    constructor ()
      ensures Valid() && rows == map[] && nextId == 1
    {
      rows := map[];
      nextId := 1;
      clock := 1;
    }

    /**
     * `Create`: inserts the document with `uploaded_at` set to `NOW()` and reads back the new
     * id and timestamp into the caller's record.
     */
    method Create(doc: Document, fault: Option<string>) returns (saved: Document, err: Option<DocError>)
      requires Valid()
      modifies this
      ensures Valid()
      ensures fault.Some? ==> err == Some(DbError(fault.value)) && saved == doc && unchanged(this)
      ensures fault.None? ==>
        err.None? && saved == doc.(id := old(nextId), uploadedAt := old(clock)) &&
        old(nextId) !in old(rows) && rows == old(rows)[old(nextId) := saved] &&
        nextId == old(nextId) + 1 && clock > old(clock)
    {
      if fault.Some? {
        return doc, Some(DbError(fault.value));
      }
      saved := doc.(id := nextId, uploadedAt := clock);
      rows := rows[nextId := saved];
      nextId := nextId + 1;
      clock := clock + 1;
      err := None;
    }

    /** `GetByID`: the row, `ErrDocumentNotFound` when there is none, or the database's error. */
    method GetByID(id: int, fault: Option<string>) returns (r: Result<Document, DocError>)
      ensures fault.Some? ==> r == Err(DbError(fault.value))
      ensures fault.None? && id in rows ==> r == Ok(rows[id])
      ensures fault.None? && id !in rows ==> r == Err(ErrDocumentNotFound)
    {
      if fault.Some? {
        return Err(DbError(fault.value));
      }
      if id in rows {
        r := Ok(rows[id]);
      } else {
        r := Err(ErrDocumentNotFound);
      }
    }

    /** `GetByPatientID` as written: `ORDER BY uploaded_by` names no column of the table, so the query always fails. */
    method GetByPatientIDAsWritten(patientId: int) returns (r: Result<seq<Document>, DocError>)
      ensures r == Err(DbError(UnknownColumnError))
    {
      r := Err(DbError(UnknownColumnError));
    }

    /** `GetByPatientID` ordering by `uploaded_at` as evidently intended: the patient's documents, newest first. */
    method GetByPatientID(patientId: int, fault: Option<string>) returns (r: Result<seq<Document>, DocError>)
      requires Valid()
      ensures fault.Some? ==> r == Err(DbError(fault.value))
      ensures fault.None? ==> r == Ok(PatientListing(rows, patientId, nextId - 1))
      ensures r.Ok? ==> forall i :: 0 <= i < |r.value| - 1 ==> r.value[i].uploadedAt > r.value[i + 1].uploadedAt
      ensures r.Ok? ==> forall id :: id in rows ==> (rows[id].patientId == patientId <==> rows[id].(publicId := "") in r.value)
    {
      if fault.Some? {
        return Err(DbError(fault.value));
      }
      var docs := PatientListing(rows, patientId, nextId - 1);
      forall i | 0 <= i < |docs| - 1
        ensures docs[i].uploadedAt > docs[i + 1].uploadedAt
      {
        assert rows[docs[i + 1].id].uploadedAt < rows[docs[i].id].uploadedAt;
      }
      r := Ok(docs);
    }

    /** `Delete` as written: `DELECT` is not a statement, so it is refused before any row is touched. */
    method DeleteAsWritten(id: int) returns (err: Option<DocError>)
      ensures err == Some(DbError(DelectSyntaxError))
      ensures rows == old(rows)
    {
      err := Some(DbError(DelectSyntaxError));
    }

    /** `Delete` with the verb spelt `DELETE`: removes exactly row `id`; no such row gives `ErrDocumentNotFound`. */
    method Delete(id: int, fault: Option<string>) returns (err: Option<DocError>)
      requires Valid()
      modifies this
      ensures Valid()
      ensures fault.Some? ==> err == Some(DbError(fault.value)) && unchanged(this)
      ensures fault.None? && id !in old(rows) ==> err == Some(ErrDocumentNotFound) && unchanged(this)
      ensures fault.None? && id in old(rows) ==> err.None? && rows == old(rows) - {id} && nextId == old(nextId)
    {
      if fault.Some? {
        return Some(DbError(fault.value));
      }
      if id !in rows {
        return Some(ErrDocumentNotFound);
      }
      rows := rows - {id};
      err := None;
    }
  }
}
