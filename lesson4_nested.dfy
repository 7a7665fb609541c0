/** Lesson 4: a form with two nested objects (personal details and an
    address), two arrays of objects (education entries and skills) with
    their own length bounds, and optional notes. */
module NestedValidation {
  import opened Ascii
  import opened Inputs
  import opened ErrorTree
  import opened Patterns
  import opened Rules

  datatype PersonalInfo = PersonalInfo(firstName: string, lastName: string, email: string)

  datatype Address = Address(street: string, city: string, state: string, zipCode: string)

  datatype Education = Education(institution: string, degree: string, graduationYear: NumInput)

  /** The level comes from a select: `None` until an option is picked, and
      the placeholder option yields the empty string. */
  datatype Skill = Skill(name: string, level: Option<string>)

  datatype CompleteForm = CompleteForm(
    personalInfo: PersonalInfo,
    address: Address,
    education: seq<Education>,
    skills: seq<Skill>,
    additionalNotes: Option<string>)

  const FirstNameRequired := Custom("First name is required")
  const LastNameRequired := Custom("Last name is required")
  const InvalidEmail := Custom("Invalid email address")
  const StreetRequired := Custom("Street is required")
  const CityRequired := Custom("City is required")
  const StateRequired := Custom("State is required")
  const InvalidZipCode := Custom("Invalid ZIP code format")
  const InstitutionRequired := Custom("Institution name is required")
  const DegreeRequired := Custom("Degree is required")
  const YearTooEarly := Custom("Year must be after 1900")
  const YearInFuture := Custom("Year cannot be in the future")
  const SkillNameRequired := Custom("Skill name is required")
  const InvalidSkillLevel := Custom("Please select a valid skill level")
  const EducationRequired := Custom("At least one education entry is required")
  const SkillRequired := Custom("At least one skill is required")
  const TooManySkills := Custom("Maximum 3 skills allowed")
  const NotesTooLong := Custom("Notes cannot exceed 500 characters")

  const PersonalInfoKey := Key("personalInfo")
  const AddressKey := Key("address")
  const EducationKey := Key("education")
  const SkillsKey := Key("skills")
  const NotesKey := Key("additionalNotes")

  const SkillLevels: seq<string> := ["Beginner", "Intermediate", "Advanced", "Expert"]

  /** The earliest accepted graduation year. */
  const MinYear := 1900
  const MaxSkills := 3

  // ---------------------------------------------------------------- ZIP code

  /** `^\d{5}(-\d{4})?$`: five digits, optionally followed by a hyphen and
      four more digits. */
  const Hyphen := CharClass([('-', '-')], false)
  const ZipPattern := Pattern(true,
    Concat(Repeat(Single(Digit), 5), Optional(Concat(Single(Hyphen), Repeat(Single(Digit), 4)))))

  /** Five ASCII digits, or five digits, a hyphen and four digits. */
  predicate IsZipCode(s: string) {
    (|s| == 5 && AllDigits(s))
    || (|s| == 10 && AllDigits(s[..5]) && s[5] == '-' && AllDigits(s[6..]))
  }

  /** The ZIP-code regular expression accepts exactly `IsZipCode`. */
  lemma ZipCodePattern(s: string)
    ensures Test(ZipPattern, s) <==> IsZipCode(s)
  {
    var tail := Concat(Single(Hyphen), Repeat(Single(Digit), 4));
    DigitsThenOptional(5, tail, s);
    if |s| > 5 {
      ClassThenDigits(Hyphen, 4, s[5..]);
      assert InClass(Hyphen, s[5]) <==> s[5] == '-' by {
        assert Hyphen.ranges[0] == ('-', '-');
      }
      assert s[5..][0] == s[5] && s[5..][1..] == s[6..];
    }
    if |s| == 5 {
      assert s[..5] == s;
    }
  }

  /** The lesson's sample formats and two near misses. */
  lemma ZipCodeExamples()
    ensures IsZipCode("12345")
    ensures IsZipCode("12345-6789")
    ensures !IsZipCode("1234")
    ensures !IsZipCode("12345-678")
    ensures !IsZipCode("12345 6789")
  {
    assert "12345-6789"[..5] == "12345" && "12345-6789"[6..] == "6789";
    assert "12345 6789"[5] == ' ';
  }

  // ------------------------------------------------------------ leaf rules

  /** `z.number().int().min(1900).max(currentYear)`: a missing value and NaN
      stop at the type check; a number goes through every check, each
      failing one adding its message (the integer check with the library's
      wording). */
  function YearIssues(year: NumInput, currentYear: int): (msgs: set<Message>)
    ensures msgs == {} <==> year.Num? && IsInteger(year.value) && MinYear as real <= year.value <= currentYear as real
    ensures year.Absent? ==> msgs == {LibraryDefault(Required)}
    ensures year.NotANumber? ==> msgs == {LibraryDefault(InvalidType)}
    ensures year.Num? ==> msgs <= {LibraryDefault(NotInteger), YearTooEarly, YearInFuture}
    ensures YearTooEarly in msgs <==> year.Num? && year.value < MinYear as real
    ensures YearInFuture in msgs <==> year.Num? && year.value > currentYear as real
    ensures LibraryDefault(NotInteger) in msgs <==> year.Num? && !IsInteger(year.value)
  {
    match year
    case Absent => {LibraryDefault(Required)}
    case NotANumber => {LibraryDefault(InvalidType)}
    case Num(x) =>
      (if IsInteger(x) then {} else {LibraryDefault(NotInteger)})
      + (if x >= MinYear as real then {} else {YearTooEarly})
      + (if x <= currentYear as real then {} else {YearInFuture})
  }

  /** The enumeration's custom error map answers every failure, an unset
      level included, with the same message. */
  function LevelIssues(level: Option<string>): (msgs: set<Message>)
    ensures msgs <= {InvalidSkillLevel}
    ensures msgs == {} <==> level.Some? && level.value in SkillLevels
  {
    if level.Some? && level.value in SkillLevels then {} else {InvalidSkillLevel}
  }

  /** The placeholder option and an untouched select are both rejected. */
  lemma UnselectedLevelRejected()
    ensures LevelIssues(None) == {InvalidSkillLevel}
    ensures LevelIssues(Some("")) == {InvalidSkillLevel}
    ensures LevelIssues(Some("Expert")) == {}
  {
    assert SkillLevels[3] == "Expert";
  }

  /** The education array's own rule: at least one entry. */
  function EducationCountIssues(n: nat): (msgs: set<Message>)
    ensures msgs <= {EducationRequired}
    ensures msgs == {} <==> n >= 1
  {
    if n < 1 then {EducationRequired} else {}
  }

  /** The skills array's own rules: at least one, at most three. */
  function SkillCountIssues(n: nat): (msgs: set<Message>)
    ensures SkillRequired in msgs <==> n == 0
    ensures TooManySkills in msgs <==> n > MaxSkills
    ensures msgs <= {SkillRequired, TooManySkills}
    ensures msgs == {} <==> 1 <= n <= MaxSkills
  {
    (if n < 1 then {SkillRequired} else {}) + (if n > MaxSkills then {TooManySkills} else {})
  }

  /** A non-empty skills list can only be too long. */
  lemma NonEmptySkillCount(n: nat)
    requires n >= 1
    ensures SkillCountIssues(n) == if n > MaxSkills then {TooManySkills} else {}
  {
    if n > MaxSkills {
      assert TooManySkills in SkillCountIssues(n);
    }
  }

  // --------------------------------------------------------- nested objects

  predicate PersonalInfoPasses(p: PersonalInfo, isEmail: string -> bool) {
    p.firstName != "" && p.lastName != "" && isEmail(p.email)
  }

  function PersonalInfoErrors(p: PersonalInfo, isEmail: string -> bool): (errs: ErrorMap)
    ensures WellFormed(errs)
    ensures errs.Keys <= {[Key("firstName")], [Key("lastName")], [Key("email")]}
    ensures Issues(errs, [Key("firstName")]) == if p.firstName == "" then {FirstNameRequired} else {}
    ensures Issues(errs, [Key("lastName")]) == if p.lastName == "" then {LastNameRequired} else {}
    ensures Issues(errs, [Key("email")]) == if isEmail(p.email) then {} else {InvalidEmail}
    ensures errs == map[] <==> PersonalInfoPasses(p, isEmail)
  {
    Prune(map[
      [Key("firstName")] := MinLength(p.firstName, 1, FirstNameRequired),
      [Key("lastName")] := MinLength(p.lastName, 1, LastNameRequired),
      [Key("email")] := Email(p.email, isEmail, InvalidEmail)])
  }

  predicate AddressPasses(a: Address) {
    a.street != "" && a.city != "" && a.state != "" && IsZipCode(a.zipCode)
  }

  function AddressErrors(a: Address): (errs: ErrorMap)
    ensures WellFormed(errs)
    ensures errs.Keys <= {[Key("street")], [Key("city")], [Key("state")], [Key("zipCode")]}
    ensures Issues(errs, [Key("street")]) == if a.street == "" then {StreetRequired} else {}
    ensures Issues(errs, [Key("city")]) == if a.city == "" then {CityRequired} else {}
    ensures Issues(errs, [Key("state")]) == if a.state == "" then {StateRequired} else {}
    ensures Issues(errs, [Key("zipCode")]) == if IsZipCode(a.zipCode) then {} else {InvalidZipCode}
    ensures errs == map[] <==> AddressPasses(a)
  {
    Prune(map[
      [Key("street")] := MinLength(a.street, 1, StreetRequired),
      [Key("city")] := MinLength(a.city, 1, CityRequired),
      [Key("state")] := MinLength(a.state, 1, StateRequired),
      [Key("zipCode")] := if IsZipCode(a.zipCode) then {} else {InvalidZipCode}])
  }

  predicate EducationPasses(e: Education, currentYear: int) {
    e.institution != "" && e.degree != "" && YearIssues(e.graduationYear, currentYear) == {}
  }

  function EducationErrors(e: Education, currentYear: int): (errs: ErrorMap)
    ensures WellFormed(errs)
    ensures errs.Keys <= {[Key("institution")], [Key("degree")], [Key("graduationYear")]}
    ensures Issues(errs, [Key("institution")]) == if e.institution == "" then {InstitutionRequired} else {}
    ensures Issues(errs, [Key("degree")]) == if e.degree == "" then {DegreeRequired} else {}
    ensures Issues(errs, [Key("graduationYear")]) == YearIssues(e.graduationYear, currentYear)
    ensures errs == map[] <==> EducationPasses(e, currentYear)
  {
    Prune(map[
      [Key("institution")] := MinLength(e.institution, 1, InstitutionRequired),
      [Key("degree")] := MinLength(e.degree, 1, DegreeRequired),
      [Key("graduationYear")] := YearIssues(e.graduationYear, currentYear)])
  }

  predicate SkillPasses(s: Skill) {
    s.name != "" && s.level.Some? && s.level.value in SkillLevels
  }

  function SkillErrors(s: Skill): (errs: ErrorMap)
    ensures WellFormed(errs)
    ensures errs.Keys <= {[Key("name")], [Key("level")]}
    ensures Issues(errs, [Key("name")]) == if s.name == "" then {SkillNameRequired} else {}
    ensures Issues(errs, [Key("level")]) == LevelIssues(s.level)
    ensures errs == map[] <==> SkillPasses(s)
  {
    Prune(map[
      [Key("name")] := MinLength(s.name, 1, SkillNameRequired),
      [Key("level")] := LevelIssues(s.level)])
  }

  // ----------------------------------------------------------------- arrays

  /** The element schema of the education array, for a given clock reading. */
  function EducationCheck(currentYear: int): Education -> ErrorMap {
    e => EducationErrors(e, currentYear)
  }

  predicate EducationListPasses(xs: seq<Education>, currentYear: int) {
    |xs| >= 1 && forall i | 0 <= i < |xs| :: EducationPasses(xs[i], currentYear)
  }

  function EducationListErrors(xs: seq<Education>, currentYear: int): (errs: ErrorMap)
    ensures WellFormed(errs)
    ensures Issues(errs, []) == EducationCountIssues(|xs|)
    ensures errs == map[] <==> EducationListPasses(xs, currentYear)
  {
    ArrayTree(EducationCountIssues(|xs|), xs, EducationCheck(currentYear))
  }

  predicate SkillListPasses(xs: seq<Skill>) {
    1 <= |xs| <= MaxSkills && forall i | 0 <= i < |xs| :: SkillPasses(xs[i])
  }

  function SkillListErrors(xs: seq<Skill>): (errs: ErrorMap)
    ensures WellFormed(errs)
    ensures Issues(errs, []) == SkillCountIssues(|xs|)
    ensures errs == map[] <==> SkillListPasses(xs)
  {
    ArrayTree(SkillCountIssues(|xs|), xs, SkillErrors)
  }

  /** Under `Idx(i)` the education array reports entry `i`'s issues, and
      nothing past the last entry. */
  lemma EducationEntry(xs: seq<Education>, currentYear: int, i: nat, q: Path)
    ensures Issues(EducationListErrors(xs, currentYear), [Idx(i)] + q) ==
      if i < |xs| then Issues(EducationErrors(xs[i], currentYear), q) else {}
  {
    var elem := EducationCheck(currentYear);
    if i < |xs| {
      ArrayElement(EducationCountIssues(|xs|), xs, elem, i, q);
    } else {
      ArrayBeyondEnd(EducationCountIssues(|xs|), xs, elem, i, q);
    }
  }

  /** Under `Idx(i)` the skills array reports skill `i`'s issues, and
      nothing past the last skill. */
  lemma SkillEntry(xs: seq<Skill>, i: nat, q: Path)
    ensures Issues(SkillListErrors(xs), [Idx(i)] + q) ==
      if i < |xs| then Issues(SkillErrors(xs[i]), q) else {}
  {
    if i < |xs| {
      ArrayElement(SkillCountIssues(|xs|), xs, SkillErrors, i, q);
    } else {
      ArrayBeyondEnd(SkillCountIssues(|xs|), xs, SkillErrors, i, q);
    }
  }

  /** The list with position `r` taken out: the later elements move down
      one position. */
  function RemoveAt<T>(xs: seq<T>, r: nat): (ys: seq<T>)
    requires r < |xs|
    ensures |ys| == |xs| - 1
    ensures forall i | 0 <= i < |ys| :: ys[i] == xs[if i < r then i else i + 1]
  {
    xs[..r] + xs[r + 1..]
  }

  // ------------------------------------------------------------ whole form

  predicate NotesPass(notes: Option<string>) {
    notes.None? || |notes.value| <= 500
  }

  /** Every rule of the schema holds. */
  predicate Passes(f: CompleteForm, currentYear: int, isEmail: string -> bool) {
    PersonalInfoPasses(f.personalInfo, isEmail)
    && AddressPasses(f.address)
    && EducationListPasses(f.education, currentYear)
    && SkillListPasses(f.skills)
    && NotesPass(f.additionalNotes)
  }

  /** The five sections of the form, each with its own tree. */
  function Sections(personal: ErrorMap, address: ErrorMap, education: ErrorMap, skills: ErrorMap, notes: ErrorMap)
    : (children: seq<(Segment, ErrorMap)>)
    ensures |children| == 5
    ensures DistinctSegments(children)
    ensures children[0] == (PersonalInfoKey, personal) && children[1] == (AddressKey, address)
    ensures children[2] == (EducationKey, education) && children[3] == (SkillsKey, skills)
    ensures children[4] == (NotesKey, notes)
    ensures WellFormed(personal) && WellFormed(address) && WellFormed(education) && WellFormed(skills) && WellFormed(notes)
      ==> forall k | 0 <= k < 5 :: WellFormed(children[k].1)
    ensures forall k | 0 <= k < 5 :: children[k].0 in {PersonalInfoKey, AddressKey, EducationKey, SkillsKey, NotesKey}
    ensures (forall k | 0 <= k < 5 :: children[k].1 == map[]) <==>
      personal == map[] && address == map[] && education == map[] && skills == map[] && notes == map[]
  {
    [(PersonalInfoKey, personal), (AddressKey, address), (EducationKey, education), (SkillsKey, skills), (NotesKey, notes)]
  }

  /** The sections of a filled-in form. */
  function FormSections(f: CompleteForm, currentYear: int, isEmail: string -> bool): seq<(Segment, ErrorMap)> {
    Sections(
      PersonalInfoErrors(f.personalInfo, isEmail),
      AddressErrors(f.address),
      EducationListErrors(f.education, currentYear),
      SkillListErrors(f.skills),
      Leaf(OptionalMaxLength(f.additionalNotes, 500, NotesTooLong)))
  }

  lemma FormWellFormed(f: CompleteForm, currentYear: int, isEmail: string -> bool)
    ensures WellFormed(Tree(FormSections(f, currentYear, isEmail)))
  {
    TreeWellFormed(FormSections(f, currentYear, isEmail));
  }

  lemma FormKeys(f: CompleteForm, currentYear: int, isEmail: string -> bool)
    ensures forall p | p in Tree(FormSections(f, currentYear, isEmail)) ::
      |p| > 0 && p[0] in {PersonalInfoKey, AddressKey, EducationKey, SkillsKey, NotesKey}
  {
    TreeKeys(FormSections(f, currentYear, isEmail));
  }

  lemma FormEmpty(f: CompleteForm, currentYear: int, isEmail: string -> bool)
    ensures Tree(FormSections(f, currentYear, isEmail)) == map[] <==> Passes(f, currentYear, isEmail)
  {
    TreeEmpty(FormSections(f, currentYear, isEmail));
    assert Leaf(OptionalMaxLength(f.additionalNotes, 500, NotesTooLong)) == map[] <==> NotesPass(f.additionalNotes);
  }

  /** The schema's error tree. `currentYear` stands for the clock reading
      the schema takes when it is built. */
  function Validate(f: CompleteForm, currentYear: int, isEmail: string -> bool): (errs: ErrorMap)
    ensures WellFormed(errs)
    ensures forall p | p in errs :: |p| > 0 && p[0] in {PersonalInfoKey, AddressKey, EducationKey, SkillsKey, NotesKey}
    ensures errs == map[] <==> Passes(f, currentYear, isEmail)
  {
    FormWellFormed(f, currentYear, isEmail);
    FormKeys(f, currentYear, isEmail);
    FormEmpty(f, currentYear, isEmail);
    Tree(FormSections(f, currentYear, isEmail))
  }

  /** Under each section's key the form reports exactly that section's issues. */
  lemma SectionLookup(f: CompleteForm, currentYear: int, isEmail: string -> bool, q: Path)
    ensures Issues(Validate(f, currentYear, isEmail), [PersonalInfoKey] + q) == Issues(PersonalInfoErrors(f.personalInfo, isEmail), q)
    ensures Issues(Validate(f, currentYear, isEmail), [AddressKey] + q) == Issues(AddressErrors(f.address), q)
    ensures Issues(Validate(f, currentYear, isEmail), [EducationKey] + q) == Issues(EducationListErrors(f.education, currentYear), q)
    ensures Issues(Validate(f, currentYear, isEmail), [SkillsKey] + q) == Issues(SkillListErrors(f.skills), q)
    ensures Issues(Validate(f, currentYear, isEmail), [NotesKey] + q) == Issues(Leaf(OptionalMaxLength(f.additionalNotes, 500, NotesTooLong)), q)
  {
    var children := FormSections(f, currentYear, isEmail);
    TreeChild(children, 0, q);
    TreeChild(children, 1, q);
    TreeChild(children, 2, q);
    TreeChild(children, 3, q);
    TreeChild(children, 4, q);
  }

  /** Path spellings, each proved apart from any error tree. */
  lemma SingleSegment(a: Segment)
    ensures [a] + [] == [a]
  {
  }

  lemma TwoSegments(a: Segment, b: Segment)
    ensures [a] + [b] == [a, b]
  {
  }

  lemma ThreeSegments(a: Segment, b: Segment, c: Segment)
    ensures [a, b] + [c] == [a, b, c]
  {
  }

  lemma PrefixedPath(a: Segment, b: Segment, q: Path)
    ensures [a, b] + q == [a] + ([b] + q)
  {
  }

  // ------------------------------------------------------ where issues land

  lemma ObjectFieldReported(f: CompleteForm, currentYear: int, isEmail: string -> bool, field: Segment)
    ensures Issues(Validate(f, currentYear, isEmail), [PersonalInfoKey, field]) ==
      Issues(PersonalInfoErrors(f.personalInfo, isEmail), [field])
    ensures Issues(Validate(f, currentYear, isEmail), [AddressKey, field]) ==
      Issues(AddressErrors(f.address), [field])
  {
    TwoSegments(PersonalInfoKey, field);
    TwoSegments(AddressKey, field);
    SectionLookup(f, currentYear, isEmail, [field]);
  }

  /** Each field of the two nested objects is reported at its own path:
      the "required" fields exactly when empty, the email by the address
      grammar, the ZIP code by its pattern. */
  lemma ObjectFieldsReported(f: CompleteForm, currentYear: int, isEmail: string -> bool)
    ensures Issues(Validate(f, currentYear, isEmail), [PersonalInfoKey, Key("firstName")]) ==
      if f.personalInfo.firstName == "" then {FirstNameRequired} else {}
    ensures Issues(Validate(f, currentYear, isEmail), [PersonalInfoKey, Key("lastName")]) ==
      if f.personalInfo.lastName == "" then {LastNameRequired} else {}
    ensures Issues(Validate(f, currentYear, isEmail), [PersonalInfoKey, Key("email")]) ==
      if isEmail(f.personalInfo.email) then {} else {InvalidEmail}
    ensures Issues(Validate(f, currentYear, isEmail), [AddressKey, Key("street")]) ==
      if f.address.street == "" then {StreetRequired} else {}
    ensures Issues(Validate(f, currentYear, isEmail), [AddressKey, Key("city")]) ==
      if f.address.city == "" then {CityRequired} else {}
    ensures Issues(Validate(f, currentYear, isEmail), [AddressKey, Key("state")]) ==
      if f.address.state == "" then {StateRequired} else {}
    ensures Issues(Validate(f, currentYear, isEmail), [AddressKey, Key("zipCode")]) ==
      if Test(ZipPattern, f.address.zipCode) then {} else {InvalidZipCode}
  {
    ObjectFieldReported(f, currentYear, isEmail, Key("firstName"));
    ObjectFieldReported(f, currentYear, isEmail, Key("lastName"));
    ObjectFieldReported(f, currentYear, isEmail, Key("email"));
    ObjectFieldReported(f, currentYear, isEmail, Key("street"));
    ObjectFieldReported(f, currentYear, isEmail, Key("city"));
    ObjectFieldReported(f, currentYear, isEmail, Key("state"));
    ObjectFieldReported(f, currentYear, isEmail, Key("zipCode"));
    ZipCodePattern(f.address.zipCode);
  }

  /** The arrays' own rules are reported at the array's path, never at an
      index. */
  lemma ArrayLengthsReported(f: CompleteForm, currentYear: int, isEmail: string -> bool)
    ensures Issues(Validate(f, currentYear, isEmail), [EducationKey]) == EducationCountIssues(|f.education|)
    ensures Issues(Validate(f, currentYear, isEmail), [SkillsKey]) == SkillCountIssues(|f.skills|)
  {
    SectionLookup(f, currentYear, isEmail, []);
    SingleSegment(EducationKey);
    SingleSegment(SkillsKey);
  }

  /** Notes are optional and at most 500 characters long. */
  lemma NotesReported(f: CompleteForm, currentYear: int, isEmail: string -> bool)
    ensures Issues(Validate(f, currentYear, isEmail), [NotesKey]) ==
      if f.additionalNotes.Some? && |f.additionalNotes.value| > 500 then {NotesTooLong} else {}
  {
    var msgs := OptionalMaxLength(f.additionalNotes, 500, NotesTooLong);
    assert msgs == if f.additionalNotes.Some? && |f.additionalNotes.value| > 500 then {NotesTooLong} else {} by {
      if msgs != {} {
        assert NotesTooLong in msgs;
      }
    }
    SectionLookup(f, currentYear, isEmail, []);
    SingleSegment(NotesKey);
  }

  /** Under `education.i` the form reports entry `i`'s own issues and no
      other entry's; past the last entry it reports nothing. */
  lemma EducationEntryReported(f: CompleteForm, currentYear: int, isEmail: string -> bool, i: nat, q: Path)
    ensures Issues(Validate(f, currentYear, isEmail), [EducationKey, Idx(i)] + q) ==
      if i < |f.education| then Issues(EducationErrors(f.education[i], currentYear), q) else {}
  {
    PrefixedPath(EducationKey, Idx(i), q);
    SectionLookup(f, currentYear, isEmail, [Idx(i)] + q);
    EducationEntry(f.education, currentYear, i, q);
  }

  /** Under `skills.i` the form reports skill `i`'s own issues and no other
      skill's; past the last skill it reports nothing. */
  lemma SkillEntryReported(f: CompleteForm, currentYear: int, isEmail: string -> bool, i: nat, q: Path)
    ensures Issues(Validate(f, currentYear, isEmail), [SkillsKey, Idx(i)] + q) ==
      if i < |f.skills| then Issues(SkillErrors(f.skills[i]), q) else {}
  {
    PrefixedPath(SkillsKey, Idx(i), q);
    SectionLookup(f, currentYear, isEmail, [Idx(i)] + q);
    SkillEntry(f.skills, i, q);
  }

  /** The fields of an education entry, each at its own path below the
      entry's index. */
  lemma EducationFieldsReported(f: CompleteForm, currentYear: int, isEmail: string -> bool, i: nat)
    requires i < |f.education|
    ensures Issues(Validate(f, currentYear, isEmail), [EducationKey, Idx(i), Key("institution")]) ==
      if f.education[i].institution == "" then {InstitutionRequired} else {}
    ensures Issues(Validate(f, currentYear, isEmail), [EducationKey, Idx(i), Key("degree")]) ==
      if f.education[i].degree == "" then {DegreeRequired} else {}
    ensures Issues(Validate(f, currentYear, isEmail), [EducationKey, Idx(i), Key("graduationYear")]) ==
      YearIssues(f.education[i].graduationYear, currentYear)
  {
    EducationFieldReported(f, currentYear, isEmail, i, Key("institution"));
    EducationFieldReported(f, currentYear, isEmail, i, Key("degree"));
    EducationFieldReported(f, currentYear, isEmail, i, Key("graduationYear"));
  }

  lemma EducationFieldReported(f: CompleteForm, currentYear: int, isEmail: string -> bool, i: nat, field: Segment)
    requires i < |f.education|
    ensures Issues(Validate(f, currentYear, isEmail), [EducationKey, Idx(i), field]) ==
      Issues(EducationErrors(f.education[i], currentYear), [field])
  {
    ThreeSegments(EducationKey, Idx(i), field);
    EducationEntryReported(f, currentYear, isEmail, i, [field]);
  }

  /** The fields of a skill, each at its own path below the skill's index. */
  lemma SkillFieldsReported(f: CompleteForm, currentYear: int, isEmail: string -> bool, i: nat)
    requires i < |f.skills|
    ensures Issues(Validate(f, currentYear, isEmail), [SkillsKey, Idx(i), Key("name")]) ==
      if f.skills[i].name == "" then {SkillNameRequired} else {}
    ensures Issues(Validate(f, currentYear, isEmail), [SkillsKey, Idx(i), Key("level")]) ==
      LevelIssues(f.skills[i].level)
  {
    SkillFieldReported(f, currentYear, isEmail, i, Key("name"));
    SkillFieldReported(f, currentYear, isEmail, i, Key("level"));
  }

  lemma SkillFieldReported(f: CompleteForm, currentYear: int, isEmail: string -> bool, i: nat, field: Segment)
    requires i < |f.skills|
    ensures Issues(Validate(f, currentYear, isEmail), [SkillsKey, Idx(i), field]) ==
      Issues(SkillErrors(f.skills[i]), [field])
  {
    ThreeSegments(SkillsKey, Idx(i), field);
    SkillEntryReported(f, currentYear, isEmail, i, [field]);
  }

  /** Removing education entry `r` renumbers the later entries, and their
      issues move down one position with them; earlier entries keep theirs. */
  lemma RemovingEducationRenumbers(xs: seq<Education>, currentYear: int, r: nat, i: nat, q: Path)
    requires r < |xs|
    ensures Issues(EducationListErrors(RemoveAt(xs, r), currentYear), [Idx(i)] + q) ==
      Issues(EducationListErrors(xs, currentYear), [Idx(if i < r then i else i + 1)] + q)
  {
    RemovalRenumbers(EducationCountIssues(|xs|), EducationCountIssues(|xs| - 1), xs, EducationCheck(currentYear), r, i, q);
  }

  /** Removing skill `r` renumbers the later skills in the same way. */
  lemma RemovingSkillRenumbers(xs: seq<Skill>, r: nat, i: nat, q: Path)
    requires r < |xs|
    ensures Issues(SkillListErrors(RemoveAt(xs, r)), [Idx(i)] + q) ==
      Issues(SkillListErrors(xs), [Idx(if i < r then i else i + 1)] + q)
  {
    SkillEntry(RemoveAt(xs, r), i, q);
    SkillEntry(xs, if i < r then i else i + 1, q);
  }
}
