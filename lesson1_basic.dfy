/** Lesson 1: a two-field form, a name of at least two characters and an
    email address. */
module BasicValidation {
  import opened ErrorTree
  import opened Rules

  datatype BasicForm = BasicForm(name: string, email: string)

  const NameTooShort := Custom("Name must be at least 2 characters")
  const InvalidEmail := Custom("Invalid email address")

  const NamePath: Path := [Key("name")]
  const EmailPath: Path := [Key("email")]

  /** Both rules of the schema hold. */
  predicate Passes(f: BasicForm, isEmail: string -> bool) {
    |f.name| >= 2 && isEmail(f.email)
  }

  /** The schema's error tree: each rule's message at its own field only. */
  function Validate(f: BasicForm, isEmail: string -> bool): (errs: ErrorMap)
    ensures WellFormed(errs)
    ensures errs.Keys <= {NamePath, EmailPath}
    ensures Issues(errs, NamePath) == if |f.name| < 2 then {NameTooShort} else {}
    ensures Issues(errs, EmailPath) == if isEmail(f.email) then {} else {InvalidEmail}
    ensures errs == map[] <==> Passes(f, isEmail)
  {
    Prune(map[NamePath := MinLength(f.name, 2, NameTooShort), EmailPath := Email(f.email, isEmail, InvalidEmail)])
  }

  /** What the submit handler receives: the name/email pair when both rules
      pass, otherwise the error tree and no call. */
  function Submit(f: BasicForm, isEmail: string -> bool): (r: Outcome<BasicForm>)
    ensures r.Accepted? <==> Passes(f, isEmail)
    ensures r.Accepted? ==> r.data == f
    ensures r.Rejected? ==> r.errors == Validate(f, isEmail) && r.errors != map[]
  {
    Resolve(f, Validate(f, isEmail))
  }
}
