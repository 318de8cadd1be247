/**
 * The patient service (internal/patient/service.go) over the in-memory table. Each
 * repository call it makes takes its own `fault`, so a re-read can fail after a write
 * succeeded. The phone number the service copies is not a field of the record and is left out.
 */
module PatientService {
  import opened Wrappers
  import opened PatientModel
  import opened PatientRepository

  class Service {
    const repo: Repository

    constructor (r: Repository)
      ensures repo == r
    {
      repo := r;
    }

    /**
     * `CreatePatient`: the record handed back is the one built from the request with the new
     * id written in. Its diagnosis and notes are nil and its timestamps are Go's zero time,
     * since only the id is read back from the insert.
     */
    method CreatePatient(req: CreatePatientRequest, fault: Option<string>) returns (r: Result<Patient, RepoError>)
      requires repo.Valid()
      modifies repo
      ensures repo.Valid()
      ensures fault.Some? ==> r == Err(DbError(fault.value)) && unchanged(repo)
      ensures fault.None? ==>
        r == Ok(Patient(old(repo.nextId), req.name, req.age, req.address, None, None, ZeroTime, ZeroTime)) &&
        r.value.id in repo.rows && r.value.id !in old(repo.rows) &&
        repo.rows == old(repo.rows)[r.value.id := repo.rows[r.value.id]] &&
        repo.rows[r.value.id] == r.value.(createdAt := old(repo.clock), updatedAt := old(repo.clock))
    {
      var p := Patient(0, req.name, req.age, req.address, None, None, ZeroTime, ZeroTime);
      var saved, err := repo.Create(p, fault);
      if err.Some? {
        return Err(err.value);
      }
      r := Ok(saved);
    }

    method GetPatient(id: int, fault: Option<string>) returns (r: Result<Patient, RepoError>)
      ensures fault.Some? ==> r == Err(DbError(fault.value))
      ensures fault.None? && id in repo.rows ==> r == Ok(repo.rows[id])
      ensures fault.None? && id !in repo.rows ==> r == Err(ErrPatientNotFound)
    {
      r := repo.GetByID(id, fault);
    }

    method ListAllPatients(fault: Option<string>) returns (r: Result<seq<Patient>, RepoError>)
      requires repo.Valid()
      ensures fault.Some? ==> r == Err(DbError(fault.value))
      ensures fault.None? ==> r == Ok(Listing(repo.rows, repo.nextId - 1))
    {
      r := repo.GetAll(fault);
    }

    /**
     * `UpdatePatient`: a failed update is returned without a read; after a successful one the
     * row is read again, and that read's outcome is the result. The record read back has the
     * request's name, age and address and the row's earlier diagnosis and notes.
     */
    method UpdatePatient(id: int, req: UpdatePatientRequest, updateFault: Option<string>, readFault: Option<string>)
      returns (r: Result<Patient, RepoError>)
      requires repo.Valid()
      modifies repo
      ensures repo.Valid()
      ensures updateFault.Some? ==> r == Err(DbError(updateFault.value)) && unchanged(repo)
      ensures updateFault.None? && id !in old(repo.rows) ==> r == Err(ErrPatientNotFound) && unchanged(repo)
      ensures updateFault.None? && id in old(repo.rows) ==>
        repo.rows == old(repo.rows)[id := old(repo.rows)[id].(name := req.name, age := req.age, address := req.address,
                                                               updatedAt := old(repo.clock))] &&
        (readFault.Some? ==> r == Err(DbError(readFault.value))) &&
        (readFault.None? ==> r == Ok(repo.rows[id]))
      ensures r.Ok? ==>
        r.value.id == id && r.value.name == req.name && r.value.age == req.age && r.value.address == req.address &&
        r.value.diagnosis == old(repo.rows)[id].diagnosis && r.value.notes == old(repo.rows)[id].notes &&
        r.value.createdAt == old(repo.rows)[id].createdAt
    {
      var p := Patient(id, req.name, req.age, req.address, None, None, ZeroTime, ZeroTime);
      var err := repo.Update(p, updateFault);
      if err.Some? {
        return Err(err.value);
      }
      r := repo.GetByID(id, readFault);
    }

    /** `UpdatePatientMedical`: the same write-then-read pattern, on diagnosis and notes. */
    method UpdatePatientMedical(id: int, req: UpdatePatientMedicalRequest, updateFault: Option<string>, readFault: Option<string>)
      returns (r: Result<Patient, RepoError>)
      requires repo.Valid()
      modifies repo
      ensures repo.Valid()
      ensures updateFault.Some? ==> r == Err(DbError(updateFault.value)) && unchanged(repo)
      ensures updateFault.None? && id !in old(repo.rows) ==> r == Err(ErrPatientNotFound) && unchanged(repo)
      ensures updateFault.None? && id in old(repo.rows) ==>
        repo.rows == old(repo.rows)[id := old(repo.rows)[id].(diagnosis := Some(req.diagnosis), notes := Some(req.notes),
                                                               updatedAt := old(repo.clock))] &&
        (readFault.Some? ==> r == Err(DbError(readFault.value))) &&
        (readFault.None? ==> r == Ok(repo.rows[id]))
      ensures r.Ok? ==>
        r.value.id == id && r.value.diagnosis == Some(req.diagnosis) && r.value.notes == Some(req.notes) &&
        r.value.name == old(repo.rows)[id].name && r.value.age == old(repo.rows)[id].age &&
        r.value.address == old(repo.rows)[id].address
    {
      var err := repo.UpdateMedical(id, req.diagnosis, req.notes, updateFault);
      if err.Some? {
        return Err(err.value);
      }
      r := repo.GetByID(id, readFault);
    }

    method DeletePatient(id: int, fault: Option<string>) returns (err: Option<RepoError>)
      requires repo.Valid()
      modifies repo
      ensures repo.Valid()
      ensures fault.Some? ==> err == Some(DbError(fault.value)) && unchanged(repo)
      ensures fault.None? && id !in old(repo.rows) ==> err == Some(ErrPatientNotFound) && unchanged(repo)
      ensures fault.None? && id in old(repo.rows) ==> err.None? && repo.rows == old(repo.rows) - {id}
    {
      err := repo.Delete(id, fault);
    }

    method SearchPatients(name: string, fault: Option<string>) returns (r: Result<seq<Patient>, RepoError>)
      requires repo.Valid()
      ensures fault.Some? ==> r == Err(DbError(fault.value))
      ensures fault.None? ==> r.Ok?
      ensures r.Ok? ==> SortedByName(r.value)
      ensures r.Ok? ==> forall p :: p in r.value <==> p in repo.rows.Values && NameMatches(p.name, name)
      ensures r.Ok? ==> NoDuplicates(r.value)
    {
      r := repo.SearchByName(name, fault);
    }
  }
}
