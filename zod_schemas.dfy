/**
 * The client-side form schemas (web/lib/zod-schemas.ts). Each schema yields the list of
 * issues, one per failed check, in field order; a form is accepted when the list is empty.
 * Lengths are JavaScript string lengths, in UTF-16 code units, with no trimming.
 */
module ZodSchemas {
  import opened Wrappers

  datatype Issue = Issue(path: string, message: string)

  /**
   * A string's JavaScript `length`: the number of UTF-16 code units, one for a character of
   * the Basic Multilingual Plane and two (a surrogate pair) for any other.
   */
  function Utf16Length(s: string): (n: nat)
    ensures |s| <= n <= 2 * |s|
    ensures (forall i :: 0 <= i < |s| ==> s[i] as int <= 0xFFFF) ==> n == |s|
  {
    if s == [] then 0
    else (if s[0] as int > 0xFFFF then 2 else 1) + Utf16Length(s[1..])
  }

  /** A `min(n, message)` check on a string, which zod makes against the string's `length`. */
  function MinLength(path: string, s: string, n: nat, message: string): (issues: seq<Issue>)
    ensures issues == [] <==> Utf16Length(s) >= n
    ensures issues != [] ==> issues == [Issue(path, message)]
    ensures |s| >= n ==> issues == []
  {
    if Utf16Length(s) < n then [Issue(path, message)] else []
  }

  /** A character outside the Basic Multilingual Plane counts twice: one emoji meets `min(2)`. */
  lemma AstralCharacterCountsTwice(path: string, message: string)
    ensures Utf16Length("\U{1F600}") == 2
    ensures MinLength(path, "\U{1F600}", 2, message) == []
  {
    assert "\U{1F600}"[1..] == "";
  }

  // ------------------------------------------------------------------- patient

  datatype PatientForm = PatientForm(name: string, age: int, phone: string, address: string)

  function PatientIssues(f: PatientForm): (issues: seq<Issue>)
    ensures issues == [] <==> Utf16Length(f.name) >= 2 && 0 <= f.age <= 150 && Utf16Length(f.phone) >= 10 && Utf16Length(f.address) >= 5
    ensures |issues| <= 4
  {
    MinLength("name", f.name, 2, "Name must be at least 2 characters") +
    (if f.age < 0 then [Issue("age", "Age must be a positive number")]
     else if f.age > 150 then [Issue("age", "Age must be realistic")]
     else []) +
    MinLength("phone", f.phone, 10, "Phone number must be at least 10 characters") +
    MinLength("address", f.address, 5, "Address must be at least 5 characters")
  }

  /** Both ends of the age range are accepted. */
  lemma AgeBoundsInclusive(f: PatientForm)
    requires Utf16Length(f.name) >= 2 && Utf16Length(f.phone) >= 10 && Utf16Length(f.address) >= 5
    ensures PatientIssues(f.(age := 0)) == [] && PatientIssues(f.(age := 150)) == []
    ensures PatientIssues(f.(age := -1)) == [Issue("age", "Age must be a positive number")]
    ensures PatientIssues(f.(age := 151)) == [Issue("age", "Age must be realistic")]
  {
  }

  // ------------------------------------------------------------------- medical

  datatype MedicalForm = MedicalForm(diagnosis: string, notes: Option<string>)

  function MedicalIssues(f: MedicalForm): (issues: seq<Issue>)
    ensures issues == [] <==> Utf16Length(f.diagnosis) >= 2
  {
    MinLength("diagnosis", f.diagnosis, 2, "Diagnosis must be at least 2 characters")
  }

  // -------------------------------------------------------------- prescription

  datatype PrescriptionForm = PrescriptionForm(medication: string, dosage: string, frequency: string, notes: Option<string>)

  function PrescriptionIssues(f: PrescriptionForm): (issues: seq<Issue>)
    ensures issues == [] <==> Utf16Length(f.medication) >= 2 && f.dosage != "" && f.frequency != ""
    ensures |issues| <= 3
  {
    MinLength("medication", f.medication, 2, "Medication name is required") +
    MinLength("dosage", f.dosage, 1, "Dosage is required") +
    MinLength("frequency", f.frequency, 1, "Frequency is required")
  }

  // --------------------------------------------------------------------- login

  datatype LoginForm = LoginForm(username: string, password: string)

  function LoginIssues(f: LoginForm): (issues: seq<Issue>)
    ensures issues == [] <==> Utf16Length(f.username) >= 3 && Utf16Length(f.password) >= 6
  {
    MinLength("username", f.username, 3, "Username must be at least 3 characters") +
    MinLength("password", f.password, 6, "Password must be at least 6 characters")
  }

  // ---------------------------------------------------------------- properties

  /** Only lengths matter: two forms whose strings have the same JavaScript lengths are judged alike. */
  lemma PatientLengthsOnly(f: PatientForm, g: PatientForm)
    requires Utf16Length(f.name) == Utf16Length(g.name) && f.age == g.age
    requires Utf16Length(f.phone) == Utf16Length(g.phone) && Utf16Length(f.address) == Utf16Length(g.address)
    ensures PatientIssues(f) == [] <==> PatientIssues(g) == []
  {
  }

  /** Nothing is trimmed: a whitespace-only form of sufficient length is accepted. */
  lemma WhitespaceOnlyPasses()
    ensures PatientIssues(PatientForm("  ", 30, "          ", "     ")) == []
    ensures MedicalIssues(MedicalForm("  ", None)) == []
    ensures PrescriptionIssues(PrescriptionForm("  ", " ", " ", None)) == []
    ensures LoginIssues(LoginForm("   ", "      ")) == []
  {
  }

  /** Notes never affect the medical or prescription verdicts. */
  lemma NotesAreOptional(m: MedicalForm, p: PrescriptionForm, notes: Option<string>)
    ensures MedicalIssues(m.(notes := notes)) == MedicalIssues(m)
    ensures PrescriptionIssues(p.(notes := notes)) == PrescriptionIssues(p)
  {
  }
}
