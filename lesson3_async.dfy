/** Lesson 3: a username checked against a list of taken names, an email
    address and an optional bio. The availability check is awaited after a
    delay in the lesson; here it is the pure function of the name it is. */
module AsyncValidation {
  import opened Ascii
  import opened Inputs
  import opened ErrorTree
  import opened Rules

  datatype AsyncForm = AsyncForm(username: string, email: string, bio: Option<string>)

  const UsernameTooShort := Custom("Username must be at least 3 characters")
  const UsernameTooLong := Custom("Username must be at most 20 characters")
  const UsernameTaken := Custom("This username is already taken")
  const InvalidEmail := Custom("Invalid email address")
  const BioTooLong := Custom("Bio must be at most 200 characters")

  const UsernamePath: Path := [Key("username")]
  const EmailPath: Path := [Key("email")]
  const BioPath: Path := [Key("bio")]

  const TakenUsernames: seq<string> := ["admin", "user", "test", "moderator", "system"]

  /** A name is available unless its lower-case form is on the taken list,
      that is, unless it equals a taken name ignoring case. */
  function CheckUsernameAvailability(username: string): (available: bool)
    ensures !available <==> exists t | t in TakenUsernames :: EqualIgnoringCase(username, t)
  {
    TakenMatchIgnoringCase(username);
    ToLower(username) !in TakenUsernames
  }

  lemma TakenMatchIgnoringCase(username: string)
    ensures ToLower(username) in TakenUsernames <==>
            exists t | t in TakenUsernames :: EqualIgnoringCase(username, t)
  {
    forall t | t in TakenUsernames
      ensures ToLower(username) == t <==> EqualIgnoringCase(username, t)
    {
      ToLowerEqualsIffEqualIgnoringCase(username, t);
    }
  }

  /** Availability ignores case: names that differ only in case get the
      same answer. */
  lemma AvailabilityIgnoresCase(u: string, v: string)
    requires EqualIgnoringCase(u, v)
    ensures CheckUsernameAvailability(u) == CheckUsernameAvailability(v)
  {
    assert ToLower(u) == ToLower(v);
  }

  /** The names the lesson's hint lists are taken in any case; a fresh name is not. */
  lemma AvailabilityExamples()
    ensures !CheckUsernameAvailability("admin")
    ensures !CheckUsernameAvailability("ADMIN")
    ensures !CheckUsernameAvailability("Admin")
    ensures CheckUsernameAvailability("freshname123")
  {
    var admin := TakenUsernames[0];
    assert admin == "admin";
    assert EqualIgnoringCase("admin", admin);
    assert EqualIgnoringCase("ADMIN", admin);
    assert EqualIgnoringCase("Admin", admin);
    assert forall t | t in TakenUsernames :: |t| < |"freshname123"|;
  }

  /** Every taken name is between 3 and 20 characters long, so the
      availability check gives the same verdict whether or not it runs after
      a failed length check. */
  lemma TakenNamesWithinLengthBounds(u: string)
    ensures !CheckUsernameAvailability(u) ==> 3 <= |u| <= 20
  {
    assert |ToLower(u)| == |u|;
  }

  /** The username rule: both length bounds, then the availability check
      once the bounds hold. */
  function UsernameIssues(u: string): (msgs: set<Message>)
    ensures msgs <= {UsernameTooShort, UsernameTooLong, UsernameTaken}
    ensures UsernameTooShort in msgs <==> |u| < 3
    ensures UsernameTooLong in msgs <==> |u| > 20
    ensures UsernameTaken in msgs <==> !CheckUsernameAvailability(u)
    ensures msgs == {} <==> 3 <= |u| <= 20 && CheckUsernameAvailability(u)
  {
    var bounds := MinLength(u, 3, UsernameTooShort) + MaxLength(u, 20, UsernameTooLong);
    var refinement := if bounds == {} && !CheckUsernameAvailability(u) then {UsernameTaken} else {};
    TakenNamesWithinLengthBounds(u);
    bounds + refinement
  }

  /** The schema's error tree. */
  function Validate(f: AsyncForm, isEmail: string -> bool): (errs: ErrorMap)
    ensures WellFormed(errs)
    ensures errs.Keys <= {UsernamePath, EmailPath, BioPath}
    ensures Issues(errs, UsernamePath) == UsernameIssues(f.username)
    ensures Issues(errs, EmailPath) == if isEmail(f.email) then {} else {InvalidEmail}
    ensures Issues(errs, BioPath) == if f.bio.Some? && |f.bio.value| > 200 then {BioTooLong} else {}
    ensures errs == map[] <==>
      3 <= |f.username| <= 20 && CheckUsernameAvailability(f.username)
      && isEmail(f.email) && (f.bio.None? || |f.bio.value| <= 200)
  {
    Prune(map[
      UsernamePath := UsernameIssues(f.username),
      EmailPath := Email(f.email, isEmail, InvalidEmail),
      BioPath := OptionalMaxLength(f.bio, 200, BioTooLong)])
  }

  /** What the submit handler receives. */
  function Submit(f: AsyncForm, isEmail: string -> bool): (r: Outcome<AsyncForm>)
    ensures r.Accepted? <==> Validate(f, isEmail) == map[]
    ensures r.Accepted? ==> r.data == f
    ensures r.Rejected? ==> r.errors == Validate(f, isEmail)
  {
    Resolve(f, Validate(f, isEmail))
  }
}
