/**
 * The patient list on the dashboard (web/components/patients/patient-table.tsx): the search
 * filter over the patients handed to the table, the role that unlocks editing and deleting,
 * and the state of the edit and delete dialogs. The parent's callbacks are counted, and the
 * ids sent to the delete endpoint are recorded; whether a delete request succeeds is an input.
 */
module PatientTable {
  import opened Wrappers
  import opened Text
  import ClientAuth

  /** A patient as the front end holds it. */
  datatype UiPatient = UiPatient(id: int, name: string, age: int, phone: string, address: string,
                                 diagnosis: string, notes: string, createdAt: string)

  /** The search rule: name and diagnosis ignore case, the phone is searched for the term as typed. */
  predicate MatchesSearch(p: UiPatient, term: string)
    ensures term == "" ==> MatchesSearch(p, term)
  {
    ContainsEmpty(Lower(p.name));
    Contains(Lower(p.name), Lower(term)) || Contains(p.phone, term) || Contains(Lower(p.diagnosis), Lower(term))
  }

  /** `s` is `t` with some entries left out, the rest in their order: each entry of `t` is either kept or skipped. */
  predicate IsSublist<T(==)>(s: seq<T>, t: seq<T>)
    decreases |t|
  {
    if t == [] then s == []
    else (s != [] && s[0] == t[0] && IsSublist(s[1..], t[1..])) || IsSublist(s, t[1..])
  }

  /** `filteredPatients`. */
  function FilterPatients(patients: seq<UiPatient>, term: string): (r: seq<UiPatient>)
    ensures forall p :: p in r <==> p in patients && MatchesSearch(p, term)
    ensures |r| <= |patients|
    ensures forall p :: multiset(r)[p] == (if MatchesSearch(p, term) then multiset(patients)[p] else 0)
  {
    if patients == [] then []
    else
      assert patients == [patients[0]] + patients[1..];
      (if MatchesSearch(patients[0], term) then [patients[0]] else []) + FilterPatients(patients[1..], term)
  }

  /** The filtered list keeps the table's order: it is a sub-list of the patients. */
  lemma {:induction false} FilterIsSublist(patients: seq<UiPatient>, term: string)
    ensures IsSublist(FilterPatients(patients, term), patients)
  {
    if patients != [] {
      FilterIsSublist(patients[1..], term);
      if MatchesSearch(patients[0], term) {
        var r := FilterPatients(patients, term);
        assert r[0] == patients[0] && r[1..] == FilterPatients(patients[1..], term);
      } else {
        assert FilterPatients(patients, term) == FilterPatients(patients[1..], term);
      }
    }
  }

  /** An empty search term keeps every patient, in order. */
  lemma {:induction false} EmptyTermKeepsAll(patients: seq<UiPatient>)
    ensures FilterPatients(patients, "") == patients
  {
    if patients != [] {
      ContainsEmpty(Lower(patients[0].name));
      assert Lower("") == "";
      EmptyTermKeepsAll(patients[1..]);
      assert [patients[0]] + patients[1..] == patients;
    }
  }

  /** The badge shows how many patients the filter kept; with no term, all of them. */
  function DisplayedCount(patients: seq<UiPatient>, term: string): (n: nat)
    ensures n <= |patients|
    ensures term == "" ==> n == |patients|
  {
    EmptyTermKeepsAll(patients);
    |FilterPatients(patients, term)|
  }

  /** A term that finds a name finds it in any mix of cases. */
  lemma NameIgnoresCase(p: UiPatient, term: string)
    requires Contains(Lower(p.name), Lower(term))
    ensures MatchesSearch(p, Lower(term)) && MatchesSearch(p, term)
  {
    LowerIdempotent(term);
  }

  /** The phone is searched for the term as typed: a phone `AB` is found by `AB` and not by `ab`. */
  lemma PhoneIsCaseSensitive()
    ensures MatchesSearch(UiPatient(1, "X", 40, "AB", "Main St", "Y", "", ""), "AB")
    ensures !MatchesSearch(UiPatient(1, "X", 40, "AB", "Main St", "Y", "", ""), "ab")
  {
    assert "AB" <= "AB";
    assert Lower("ab") == "ab" && Lower("X") == "x" && Lower("Y") == "y";
    assert !Contains("", "ab");
    assert !Contains("x", "ab") && !Contains("y", "ab");
    assert "AB"[1..] == "B" && !Contains("B", "ab");
    assert !Contains("AB", "ab");
  }

  /** Edit and Delete are offered only to a stored role of exactly `receptionist`. */
  predicate OffersActions(role: Option<string>)
    ensures OffersActions(role) ==> role.Some? && role.value != "doctor"
  {
    role == Some("receptionist")
  }

  /** The entries of a row's action menu for the stored role: View Details always, Edit and Delete by role. */
  function ActionItems(role: Option<string>): (items: seq<string>)
    ensures |items| >= 1 && items[0] == "View Details"
    ensures "Edit Patient" in items <==> OffersActions(role)
    ensures "Delete Patient" in items <==> OffersActions(role)
    ensures |items| == 3 <==> role == Some("receptionist")
  {
    ["View Details"] + (if OffersActions(role) then ["Edit Patient", "Delete Patient"] else [])
  }

  /** A doctor's menu, and the menu after logout, hold only View Details. */
  lemma OnlyReceptionistEdits(role: string)
    ensures ActionItems(Some(role)) == ["View Details"] <==> role != "receptionist"
    ensures ActionItems(None) == ["View Details"]
  {
  }

  /** The table's component state and what it has asked of its parent and of the server. */
  class TableState {
    var userRole: Option<string>
    var searchTerm: string
    var editingPatient: Option<UiPatient>
    var deletingPatient: Option<UiPatient>
    var isEditDialogOpen: bool
    var isDeleteDialogOpen: bool
    var deleteRequests: seq<int>
    var deletedNotices: nat
    var updatedNotices: nat

    /**
     * The component mounts. The role comes from `localStorage`; the component reads it again on
     * every render, and the model fixes it at mount time, so a role changed while the table is
     * shown is not modelled.
     */
    constructor (storage: ClientAuth.LocalStorage)
      ensures userRole == ClientAuth.GetUserRole(storage)
      ensures searchTerm == "" && editingPatient.None? && deletingPatient.None?
      ensures !isEditDialogOpen && !isDeleteDialogOpen
      ensures deleteRequests == [] && deletedNotices == 0 && updatedNotices == 0
    {
      userRole := ClientAuth.GetUserRole(storage);
      searchTerm := "";
      editingPatient := None;
      deletingPatient := None;
      isEditDialogOpen := false;
      isDeleteDialogOpen := false;
      deleteRequests := [];
      deletedNotices := 0;
      updatedNotices := 0;
    }

    /** `handleEdit`, run by the Edit Patient item: selects the patient and opens the edit dialog. */
    method HandleEdit(p: UiPatient)
      requires "Edit Patient" in ActionItems(userRole)
      modifies this
      ensures editingPatient == Some(p) && isEditDialogOpen
      ensures userRole == old(userRole)
      ensures searchTerm == old(searchTerm) && deletingPatient == old(deletingPatient)
      ensures isDeleteDialogOpen == old(isDeleteDialogOpen) && deleteRequests == old(deleteRequests)
      ensures deletedNotices == old(deletedNotices) && updatedNotices == old(updatedNotices)
    {
      editingPatient := Some(p);
      isEditDialogOpen := true;
    }

    /** `handleDelete`, run by the Delete Patient item: selects the patient and opens the delete confirmation. */
    method HandleDelete(p: UiPatient)
      requires "Delete Patient" in ActionItems(userRole)
      modifies this
      ensures deletingPatient == Some(p) && isDeleteDialogOpen
      ensures userRole == old(userRole)
      ensures searchTerm == old(searchTerm) && editingPatient == old(editingPatient)
      ensures isEditDialogOpen == old(isEditDialogOpen) && deleteRequests == old(deleteRequests)
      ensures deletedNotices == old(deletedNotices) && updatedNotices == old(updatedNotices)
    {
      deletingPatient := Some(p);
      isDeleteDialogOpen := true;
    }

    /**
     * `confirmDelete`: with no patient selected nothing happens. Otherwise the selected id is
     * sent to the server; on success the parent is told, the dialog closes and the selection is
     * cleared, and on failure the dialog and the selection stay as they were.
     */
    method ConfirmDelete(succeeds: bool)
      modifies this
      ensures old(deletingPatient).None? ==> unchanged(this)
      ensures userRole == old(userRole)
      ensures old(deletingPatient).Some? ==> deleteRequests == old(deleteRequests) + [old(deletingPatient).value.id]
      ensures old(deletingPatient).Some? && succeeds ==>
        deletedNotices == old(deletedNotices) + 1 && !isDeleteDialogOpen && deletingPatient.None?
      ensures old(deletingPatient).Some? && !succeeds ==>
        deletedNotices == old(deletedNotices) && isDeleteDialogOpen == old(isDeleteDialogOpen) &&
        deletingPatient == old(deletingPatient)
      ensures searchTerm == old(searchTerm) && editingPatient == old(editingPatient)
      ensures isEditDialogOpen == old(isEditDialogOpen) && updatedNotices == old(updatedNotices)
    {
      if deletingPatient.None? {
        return;
      }
      deleteRequests := deleteRequests + [deletingPatient.value.id];
      if succeeds {
        deletedNotices := deletedNotices + 1;
        isDeleteDialogOpen := false;
        deletingPatient := None;
      }
    }

    /** `handleEditSuccess`: closes the edit dialog, clears the selection and tells the parent. */
    method HandleEditSuccess()
      modifies this
      ensures !isEditDialogOpen && editingPatient.None? && updatedNotices == old(updatedNotices) + 1
      ensures userRole == old(userRole)
      ensures searchTerm == old(searchTerm) && deletingPatient == old(deletingPatient)
      ensures isDeleteDialogOpen == old(isDeleteDialogOpen) && deleteRequests == old(deleteRequests)
      ensures deletedNotices == old(deletedNotices)
    {
      isEditDialogOpen := false;
      editingPatient := None;
      updatedNotices := updatedNotices + 1;
    }

    /** The rows shown for the patients handed to the table. */
    function Shown(patients: seq<UiPatient>): (r: seq<UiPatient>)
      reads this
      ensures |r| <= |patients|
      ensures searchTerm == "" ==> r == patients
    {
      EmptyTermKeepsAll(patients);
      FilterPatients(patients, searchTerm)
    }
  }
}
