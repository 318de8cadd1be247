/**
 * The `patients` table behind internal/patient/repository.go, held in memory: the rows by
 * id, the next value of the `id` serial, and the database clock read by `NOW()`. Each
 * statement may fail at the database (`fault`), in which case nothing changes.
 */
module PatientRepository {
  import opened Wrappers
  import opened Text
  import opened SqlMatch
  import opened PatientModel

  /** The sentinel `ErrPatientNotFound`, or any other error the database reports. */
  datatype RepoError = ErrPatientNotFound | DbError(message: string)

  function ErrorText(e: RepoError): string {
    match e
    case ErrPatientNotFound => "patient not found"
    case DbError(message) => message
  }

  /** Every row sits under its own id. */
  predicate KeyedById(rows: map<int, Patient>) {
    forall id :: id in rows ==> rows[id].id == id
  }

  // ------------------------------------------------------ ORDER BY created_at DESC

  /** The rows with ids in `1..k`, highest id first. */
  function Listing(rows: map<int, Patient>, k: int): (r: seq<Patient>)
    requires KeyedById(rows)
    ensures forall i :: 0 <= i < |r| ==> 0 < r[i].id <= k && r[i].id in rows && rows[r[i].id] == r[i]
    ensures forall i, j :: 0 <= i < j < |r| ==> r[i].id > r[j].id
    decreases k
  {
    if k <= 0 then []
    else if k in rows then [rows[k]] + Listing(rows, k - 1)
    else Listing(rows, k - 1)
  }

  /** Every row with an id in `1..k` is listed. */
  lemma {:induction false} ListingComplete(rows: map<int, Patient>, k: int, id: int)
    requires KeyedById(rows)
    requires 0 < id <= k && id in rows
    ensures rows[id] in Listing(rows, k)
    decreases k
  {
    if id < k {
      ListingComplete(rows, k - 1, id);
    }
  }

  // ------------------------------------------------------------ ORDER BY name ASC

  predicate SortedByName(s: seq<Patient>) {
    forall i :: 0 <= i < |s| - 1 ==> LexLeq(s[i].name, s[i + 1].name)
  }

  function InsertByName(p: Patient, s: seq<Patient>): (r: seq<Patient>)
    requires SortedByName(s)
    ensures SortedByName(r)
    ensures multiset(r) == multiset(s) + multiset{p}
    ensures |r| == |s| + 1
    ensures r[0] == p || (s != [] && r[0] == s[0])
  {
    if s == [] then [p]
    else if LexLeq(p.name, s[0].name) then [p] + s
    else
      LexLeqTotal(p.name, s[0].name);
      assert s == [s[0]] + s[1..];
      [s[0]] + InsertByName(p, s[1..])
  }

  function SortByName(s: seq<Patient>): (r: seq<Patient>)
    ensures SortedByName(r)
    ensures multiset(r) == multiset(s)
  {
    if s == [] then []
    else
      assert s == [s[0]] + s[1..];
      InsertByName(s[0], SortByName(s[1..]))
  }

  /** `name ILIKE '%' || term || '%'`: the term is not escaped, so its `%` and `_` are wildcards. */
  predicate NameMatches(name: string, term: string) {
    ILike(name, "%" + term + "%")
  }

  /** For a term with no wildcard, a name matches exactly when it contains the term, ignoring case. */
  lemma NameMatchesLiteral(name: string, term: string)
    requires Literal(term)
    ensures NameMatches(name, term) <==> Contains(Lower(name), Lower(term))
  {
    SearchPatternOfLiteral(name, term);
  }

  function Matching(s: seq<Patient>, term: string): (r: seq<Patient>)
    ensures forall p :: p in r <==> p in s && NameMatches(p.name, term)
    ensures |r| <= |s|
  {
    if s == [] then []
    else (if NameMatches(s[0].name, term) then [s[0]] else []) + Matching(s[1..], term)
  }

  class Repository {
    var rows: map<int, Patient>
    var nextId: int
    var clock: int

    /**
     * Ids come from the serial and every row sits under its own id; `NOW()` has moved past
     * every stored timestamp; and a row with a higher id was created later.
     */
    ghost predicate Valid()
      reads this
    {
      nextId >= 1 && clock > ZeroTime && KeyedById(rows) &&
      (forall id :: id in rows ==> 1 <= id < nextId) &&
      (forall id :: id in rows ==> ZeroTime < rows[id].createdAt < clock && rows[id].updatedAt < clock) &&
      (forall a, b :: a in rows && b in rows && a < b ==> rows[a].createdAt < rows[b].createdAt)
    }

    constructor ()
      ensures Valid() && rows == map[] && nextId == 1
    {
      rows := map[];
      nextId := 1;
      clock := ZeroTime + 1;
    }

    /**
     * `Create`: inserts name, age and address with null diagnosis and notes, both timestamps
     * `NOW()`, and writes the new id into the caller's record, which is returned; on a
     * failure the record comes back untouched.
     */
    method Create(p: Patient, fault: Option<string>) returns (saved: Patient, err: Option<RepoError>)
      requires Valid()
      modifies this
      ensures Valid()
      ensures fault.Some? ==> err == Some(DbError(fault.value)) && saved == p && unchanged(this)
      ensures fault.None? ==>
        err.None? && saved == p.(id := old(nextId)) &&
        old(nextId) !in old(rows) &&
        rows == old(rows)[old(nextId) := Patient(old(nextId), p.name, p.age, p.address, None, None, old(clock), old(clock))] &&
        nextId == old(nextId) + 1 && clock > old(clock)
    {
      if fault.Some? {
        return p, Some(DbError(fault.value));
      }
      var id := nextId;
      rows := rows[id := Patient(id, p.name, p.age, p.address, None, None, clock, clock)];
      nextId := nextId + 1;
      clock := clock + 1;
      saved := p.(id := id);
      err := None;
    }

    /** `GetByID`: the row, `ErrPatientNotFound` when there is none, or the database's error. */
    method GetByID(id: int, fault: Option<string>) returns (r: Result<Patient, RepoError>)
      ensures fault.Some? ==> r == Err(DbError(fault.value))
      ensures fault.None? && id in rows ==> r == Ok(rows[id])
      ensures fault.None? && id !in rows ==> r == Err(ErrPatientNotFound)
    {
      if fault.Some? {
        return Err(DbError(fault.value));
      }
      if id in rows {
        r := Ok(rows[id]);
      } else {
        r := Err(ErrPatientNotFound);
      }
    }

    /** `GetAll`: every row, newest `created_at` first. */
    method GetAll(fault: Option<string>) returns (r: Result<seq<Patient>, RepoError>)
      requires Valid()
      ensures fault.Some? ==> r == Err(DbError(fault.value))
      ensures fault.None? ==> r.Ok? && r.value == Listing(rows, nextId - 1)
      ensures r.Ok? ==> NewestFirst(r.value) && EachRowOnce(r.value, rows)
    {
      if fault.Some? {
        r := Err(DbError(fault.value));
      } else {
        var table, last := rows, nextId - 1;
        ListingByCreation(table, last);
        ListingHoldsRows(table, last);
        r := Ok(Listing(table, last));
      }
    }

    /** The listing is in strictly decreasing creation time. */
    lemma ListingIsNewestFirst()
      requires Valid()
      ensures NewestFirst(Listing(rows, nextId - 1))
    {
      ListingByCreation(rows, nextId - 1);
    }

    /** The listing holds each row once. */
    lemma ListingHoldsEachRow()
      requires Valid()
      ensures EachRowOnce(Listing(rows, nextId - 1), rows)
    {
      ListingHoldsRows(rows, nextId - 1);
    }

    /**
     * `Update`: overwrites name, age and address of row `p.id` and stamps `updated_at`;
     * diagnosis, notes and `created_at` are kept. No row with that id: `ErrPatientNotFound`.
     */
    method Update(p: Patient, fault: Option<string>) returns (err: Option<RepoError>)
      requires Valid()
      modifies this
      ensures Valid()
      ensures fault.Some? ==> err == Some(DbError(fault.value)) && unchanged(this)
      ensures fault.None? && p.id !in old(rows) ==> err == Some(ErrPatientNotFound) && unchanged(this)
      ensures fault.None? && p.id in old(rows) ==>
        err.None? &&
        rows == old(rows)[p.id := old(rows)[p.id].(name := p.name, age := p.age, address := p.address, updatedAt := old(clock))] &&
        nextId == old(nextId) && clock > old(clock)
    {
      if fault.Some? {
        return Some(DbError(fault.value));
      }
      if p.id !in rows {
        return Some(ErrPatientNotFound);
      }
      rows := rows[p.id := rows[p.id].(name := p.name, age := p.age, address := p.address, updatedAt := clock)];
      clock := clock + 1;
      err := None;
    }

    /** `UpdateMedical`: sets diagnosis and notes of row `id` and stamps `updated_at`; nothing else changes. */
    method UpdateMedical(id: int, diagnosis: string, notes: string, fault: Option<string>) returns (err: Option<RepoError>)
      requires Valid()
      modifies this
      ensures Valid()
      ensures fault.Some? ==> err == Some(DbError(fault.value)) && unchanged(this)
      ensures fault.None? && id !in old(rows) ==> err == Some(ErrPatientNotFound) && unchanged(this)
      ensures fault.None? && id in old(rows) ==>
        err.None? &&
        rows == old(rows)[id := old(rows)[id].(diagnosis := Some(diagnosis), notes := Some(notes), updatedAt := old(clock))] &&
        nextId == old(nextId) && clock > old(clock)
    {
      if fault.Some? {
        return Some(DbError(fault.value));
      }
      if id !in rows {
        return Some(ErrPatientNotFound);
      }
      rows := rows[id := rows[id].(diagnosis := Some(diagnosis), notes := Some(notes), updatedAt := clock)];
      clock := clock + 1;
      err := None;
    }

    /** `Delete`: removes exactly row `id`; no such row gives `ErrPatientNotFound`. */
    method Delete(id: int, fault: Option<string>) returns (err: Option<RepoError>)
      requires Valid()
      modifies this
      ensures Valid()
      ensures fault.Some? ==> err == Some(DbError(fault.value)) && unchanged(this)
      ensures fault.None? && id !in old(rows) ==> err == Some(ErrPatientNotFound) && unchanged(this)
      ensures fault.None? && id in old(rows) ==>
        err.None? && rows == old(rows) - {id} && nextId == old(nextId) && clock == old(clock)
    {
      if fault.Some? {
        return Some(DbError(fault.value));
      }
      if id !in rows {
        return Some(ErrPatientNotFound);
      }
      rows := rows - {id};
      err := None;
    }

    /** `SearchByName`: the rows whose name matches `'%' || name || '%'` case-insensitively, by name ascending. */
    method SearchByName(name: string, fault: Option<string>) returns (r: Result<seq<Patient>, RepoError>)
      requires Valid()
      ensures fault.Some? ==> r == Err(DbError(fault.value))
      ensures fault.None? ==> r == Ok(Search(rows, nextId - 1, name))
      ensures r.Ok? ==> SortedByName(r.value)
      ensures r.Ok? ==> forall p :: p in r.value <==> p in rows.Values && NameMatches(p.name, name)
      ensures r.Ok? ==> NoDuplicates(r.value)
    {
      if fault.Some? {
        r := Err(DbError(fault.value));
      } else {
        r := Ok(Search(rows, nextId - 1, name));
      }
    }
  }

  /** When a higher id means a later creation, the listing by descending id is newest first. */
  lemma ListingByCreation(rows: map<int, Patient>, k: int)
    requires KeyedById(rows)
    requires forall a, b :: a in rows && b in rows && a < b ==> rows[a].createdAt < rows[b].createdAt
    ensures NewestFirst(Listing(rows, k))
  {
    var all := Listing(rows, k);
    forall i, j | 0 <= i < j < |all|
      ensures all[i].createdAt > all[j].createdAt
    {
      assert all[j].id < all[i].id;
    }
  }

  /** With every id in `1..k`, the listing holds each row exactly once. */
  lemma ListingHoldsRows(rows: map<int, Patient>, k: int)
    requires KeyedById(rows)
    requires forall id :: id in rows ==> 1 <= id <= k
    ensures EachRowOnce(Listing(rows, k), rows)
  {
    ListingLength(rows, k);
    ListingMembers(rows, k);
  }

  lemma ListingLength(rows: map<int, Patient>, k: int)
    requires KeyedById(rows)
    requires forall id :: id in rows ==> 1 <= id <= k
    ensures |Listing(rows, k)| == |rows|
  {
    var all := Listing(rows, k);
    var ids := set i | 0 <= i < |all| :: all[i].id;
    assert ids == rows.Keys by {
      forall id | id in rows
        ensures id in ids
      {
        ListingComplete(rows, k, id);
        var j :| 0 <= j < |all| && all[j] == rows[id];
      }
    }
    IdsOfDistinct(all);
  }

  lemma ListingMembers(rows: map<int, Patient>, k: int)
    requires KeyedById(rows)
    requires forall id :: id in rows ==> 1 <= id <= k
    ensures forall p :: p in Listing(rows, k) <==> p in rows.Values
  {
    var all := Listing(rows, k);
    forall id | id in rows
      ensures rows[id] in all
    {
      ListingComplete(rows, k, id);
    }
  }

  /**
   * The search query over a table whose ids lie in `1..k`: sorted by name, and holding exactly
   * the rows of the table whose name matches.
   */
  function Search(rows: map<int, Patient>, k: int, name: string): (r: seq<Patient>)
    requires KeyedById(rows)
    requires forall id :: id in rows ==> 1 <= id <= k
    ensures SortedByName(r)
    ensures forall p :: p in r <==> p in rows.Values && NameMatches(p.name, name)
    ensures NoDuplicates(r)
  {
    var matching := Matching(Listing(rows, k), name);
    ListingMembers(rows, k);
    SameElements(SortByName(matching), matching);
    MatchingIsSubMultiset(Listing(rows, k), name);
    SubMultisetKeepsNoDuplicates(SortByName(matching), Listing(rows, k));
    SortByName(matching)
  }

  /** No record occurs twice. */
  predicate NoDuplicates<T(==)>(s: seq<T>) {
    forall i, j :: 0 <= i < j < |s| ==> s[i] != s[j]
  }

  /** Filtering keeps some of the elements, each no more often than before. */
  lemma {:induction false} MatchingIsSubMultiset(s: seq<Patient>, term: string)
    ensures multiset(Matching(s, term)) <= multiset(s)
  {
    if s != [] {
      assert s == [s[0]] + s[1..];
      MatchingIsSubMultiset(s[1..], term);
    }
  }

  /** A sequence without duplicates has each element at most once in its multiset. */
  lemma {:induction false} NoDuplicatesCount<T>(s: seq<T>, x: T)
    requires NoDuplicates(s)
    ensures multiset(s)[x] <= 1
  {
    if s != [] {
      var rest := s[1..];
      assert s == [s[0]] + rest;
      forall i, j | 0 <= i < j < |rest|
        ensures rest[i] != rest[j]
      {
        assert rest[i] == s[i + 1] && rest[j] == s[j + 1];
      }
      NoDuplicatesCount(rest, x);
      if s[0] == x {
        forall k | 0 <= k < |rest|
          ensures rest[k] != x
        {
          assert rest[k] == s[k + 1];
        }
        assert x !in rest;
      }
    }
  }

  /** Keeping some elements of a sequence without duplicates, in any order, yields none. */
  lemma SubMultisetKeepsNoDuplicates<T>(a: seq<T>, b: seq<T>)
    requires multiset(a) <= multiset(b) && NoDuplicates(b)
    ensures NoDuplicates(a)
  {
    forall i, j | 0 <= i < j < |a|
      ensures a[i] != a[j]
    {
      NoDuplicatesCount(b, a[i]);
      assert a == a[..j] + a[j..];
      assert multiset(a) == multiset(a[..j]) + multiset(a[j..]);
      assert a[..j][i] == a[i];
      assert a[j..][0] == a[j];
      assert multiset(a[..j])[a[i]] >= 1;
    }
  }

  lemma SameElements(a: seq<Patient>, b: seq<Patient>)
    requires multiset(a) == multiset(b)
    ensures forall p :: p in a <==> p in b
  {
    forall p
      ensures p in a <==> p in b
    {
      assert p in a <==> p in multiset(a);
      assert p in b <==> p in multiset(b);
    }
  }

  /** `s` holds the rows of the table, each exactly once. */
  ghost predicate EachRowOnce(s: seq<Patient>, rows: map<int, Patient>) {
    |s| == |rows| && forall p :: p in s <==> p in rows.Values
  }

  predicate NewestFirst(s: seq<Patient>) {
    forall i, j :: 0 <= i < j < |s| ==> s[i].createdAt > s[j].createdAt
  }

  /** Records with pairwise distinct ids: the sequence is as long as its set of ids. */
  lemma {:induction false} IdsOfDistinct(s: seq<Patient>)
    requires forall i, j :: 0 <= i < j < |s| ==> s[i].id > s[j].id
    ensures |set i | 0 <= i < |s| :: s[i].id| == |s|
  {
    if s != [] {
      IdsOfDistinct(s[1..]);
      var tail := set i | 0 <= i < |s[1..]| :: s[1..][i].id;
      var all := set i | 0 <= i < |s| :: s[i].id;
      assert all == {s[0].id} + tail by {
        forall x | x in all
          ensures x in {s[0].id} + tail
        {
          var i :| 0 <= i < |s| && s[i].id == x;
          if i > 0 {
            assert s[1..][i - 1].id == x;
          }
        }
      }
      assert s[0].id !in tail;
    }
  }
}
