/**
 * The document service (internal/document/service.go): an upload writes to the cloud store
 * first and to the database second, and takes the cloud file back when the database refuses
 * the row; a deletion takes the cloud file away on a best-effort basis and then deletes the
 * row. The multipart file header is a value: its name, its `Content-Type` header and whether
 * it can be opened.
 */
module DocumentService {
  import opened Wrappers
  import opened Text
  import opened DocumentStore

  /** A received multipart file: its name, its `Content-Type` header ("" when absent), and the error opening it gives, if any. */
  datatype FileHeader = FileHeader(fileName: string, contentType: string, openFault: Option<string>)

  const PublicIdPrefix := "patient_docs/patient_"
  const DocumentFolder := "patient_documents"

  /** The public id asked for: `patient_docs/patient_<patient id>/<file name>`. */
  function PublicIdFor(patientId: int, fileName: string): (s: string)
    ensures PublicIdPrefix <= s
    ensures s[|PublicIdPrefix|..] == FormatInt(patientId) + "/" + fileName
  {
    PublicIdPrefix + FormatInt(patientId) + "/" + fileName
  }

  /** The parameters of the upload for a patient's file: its public id, the fixed folder, and an automatic resource type. */
  function UploadRequest(patientId: int, fileName: string): UploadParams {
    UploadParams(PublicIdFor(patientId, fileName), DocumentFolder, "auto")
  }

  /**
   * Different patients, or different file names, ask for different public ids: the decimal id
   * holds no `/`, so the first `/` after the prefix separates it from the file name.
   */
  lemma PublicIdInjective(p1: int, f1: string, p2: int, f2: string)
    ensures PublicIdFor(p1, f1) == PublicIdFor(p2, f2) <==> p1 == p2 && f1 == f2
  {
    if PublicIdFor(p1, f1) == PublicIdFor(p2, f2) {
      var a1, a2 := FormatInt(p1), FormatInt(p2);
      var t1, t2 := a1 + "/" + f1, a2 + "/" + f2;
      assert t1 == t2;
      assert '/' !in a1 by {
        forall i | 0 <= i < |a1| ensures a1[i] != '/' {
          assert IsDigit(a1[i]) || a1[i] == '-';
        }
      }
      assert '/' !in a2 by {
        forall i | 0 <= i < |a2| ensures a2[i] != '/' {
          assert IsDigit(a2[i]) || a2[i] == '-';
        }
      }
      assert t1[..|a1|] == a1;
      assert t2[..|a2|] == a2;
      FirstIndexIs(t1, '/', |a1|);
      FirstIndexIs(t2, '/', |a2|);
      assert a1 == a2;
      FormatIntInjective(p1, p2);
      assert f1 == t1[|a1| + 1..];
      assert f2 == t2[|a2| + 1..];
    }
  }

  class Service {
    const repo: Repository
    const cloud: CloudStore

    constructor (r: Repository, c: CloudStore)
      ensures repo == r && cloud == c
    {
      repo := r;
      cloud := c;
    }

    /**
     * `UploadDocument`. `upload` is the cloud store's answer to the parameters asked for,
     * `insertFault` the database's refusal of the row, `destroyFault` the failure of the
     * rollback's destroy (which is ignored).
     */
    method UploadDocument(patientId: int, file: FileHeader,
                          upload: UploadParams -> Result<Uploaded, string>,
                          insertFault: Option<string>, destroyFault: Option<string>)
      returns (r: Result<Document, DocError>)
      requires repo.Valid()
      modifies repo, cloud
      ensures repo.Valid()
      // the file cannot be opened: nothing is uploaded and nothing is stored
      ensures file.openFault.Some? ==>
        r == Err(OpenFailed(file.openFault.value)) && unchanged(repo) && unchanged(cloud)
      // the upload fails: no row is written
      ensures file.openFault.None? && upload(UploadRequest(patientId, file.fileName)).Err? ==>
        r == Err(UploadFailed(upload(UploadRequest(patientId, file.fileName)).error)) &&
        unchanged(repo) && unchanged(cloud)
      // the row is refused: the uploaded file is destroyed (if the destroy works) and the database's error returned
      ensures file.openFault.None? && upload(UploadRequest(patientId, file.fileName)).Ok? && insertFault.Some? ==>
        var u := upload(UploadRequest(patientId, file.fileName)).value;
        r == Err(DbError(insertFault.value)) && unchanged(repo) &&
        (destroyFault.None? ==> cloud.assets == old(cloud.assets) - {u.publicId}) &&
        (destroyFault.Some? ==> cloud.assets == old(cloud.assets)[u.publicId := u.secureUrl])
      // success: both stores hold the document
      ensures file.openFault.None? && upload(UploadRequest(patientId, file.fileName)).Ok? && insertFault.None? ==>
        var u := upload(UploadRequest(patientId, file.fileName)).value;
        r == Ok(Document(old(repo.nextId), patientId, file.fileName, u.secureUrl, u.publicId, file.contentType, old(repo.clock))) &&
        old(repo.nextId) !in old(repo.rows) &&
        repo.rows == old(repo.rows)[r.value.id := r.value] &&
        cloud.assets == old(cloud.assets)[u.publicId := u.secureUrl]
      ensures r.Ok? ==> r.value.publicId in cloud.assets && repo.rows[r.value.id] == r.value
    {
      if file.openFault.Some? {
        return Err(OpenFailed(file.openFault.value));
      }
      var params := UploadRequest(patientId, file.fileName);
      var uploaded := cloud.Upload(params, upload);
      if uploaded.Err? {
        return Err(UploadFailed(uploaded.error));
      }
      var doc := Document(0, patientId, file.fileName, uploaded.value.secureUrl, uploaded.value.publicId, file.contentType, 0);
      var saved, err := repo.Create(doc, insertFault);
      if err.Some? {
        var _ := cloud.Destroy(doc.publicId, destroyFault);
        return Err(err.value);
      }
      r := Ok(saved);
    }

    /** `GetDocumentsForPatient`: the repository's listing, passed through. */
    method GetDocumentsForPatient(patientId: int, fault: Option<string>) returns (r: Result<seq<Document>, DocError>)
      requires repo.Valid()
      ensures fault.Some? ==> r == Err(DbError(fault.value))
      ensures fault.None? ==> r == Ok(PatientListing(repo.rows, patientId, repo.nextId - 1))
    {
      r := repo.GetByPatientID(patientId, fault);
    }

    /**
     * `DeleteDocument`: a failed lookup is returned before the cloud is touched; a failed destroy
     * is only logged; the database delete's outcome is the result.
     */
    method DeleteDocument(id: int, lookupFault: Option<string>, destroyFault: Option<string>, deleteFault: Option<string>)
      returns (err: Option<DocError>)
      requires repo.Valid()
      modifies repo, cloud
      ensures repo.Valid()
      ensures lookupFault.Some? ==> err == Some(DbError(lookupFault.value)) && unchanged(repo) && unchanged(cloud)
      ensures lookupFault.None? && id !in old(repo.rows) ==> err == Some(ErrDocumentNotFound) && unchanged(repo) && unchanged(cloud)
      ensures lookupFault.None? && id in old(repo.rows) ==>
        (destroyFault.None? ==> cloud.assets == old(cloud.assets) - {old(repo.rows)[id].publicId}) &&
        (destroyFault.Some? ==> cloud.assets == old(cloud.assets)) &&
        (deleteFault.Some? ==> err == Some(DbError(deleteFault.value)) && repo.rows == old(repo.rows)) &&
        (deleteFault.None? ==> err.None? && repo.rows == old(repo.rows) - {id})
    {
      var found := repo.GetByID(id, lookupFault);
      if found.Err? {
        return Some(found.error);
      }
      var _ := cloud.Destroy(found.value.publicId, destroyFault);
      err := repo.Delete(id, deleteFault);
    }

    /**
     * `DeleteDocument` over the delete statement as written: it can never succeed, and when the
     * lookup and the destroy work the file is gone from the cloud while its row stays.
     */
    method DeleteDocumentAsWritten(id: int, lookupFault: Option<string>, destroyFault: Option<string>)
      returns (err: Option<DocError>)
      modifies cloud
      ensures err.Some?
      ensures lookupFault.None? && id in repo.rows ==> err == Some(DbError(DelectSyntaxError))
      ensures lookupFault.None? && id in repo.rows && destroyFault.None? ==>
        cloud.assets == old(cloud.assets) - {repo.rows[id].publicId}
    {
      var found := repo.GetByID(id, lookupFault);
      if found.Err? {
        return Some(found.error);
      }
      var _ := cloud.Destroy(found.value.publicId, destroyFault);
      err := repo.DeleteAsWritten(id);
    }
  }
}
