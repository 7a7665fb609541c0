/** Lesson 4's editable lists: the education entries and the skills the form
    renders, which the user grows with the "Add" buttons, shrinks with the
    "Remove" buttons and fills in through the registered inputs. */
module FieldArrays {
  import opened Inputs
  import opened ErrorTree
  import opened NestedValidation

  /** The entry "Add Education" appends, and the form's first entry. */
  const BlankEducation := Education("", "", Absent)

  /** The skill "Add Skill" appends, and the form's first skill. */
  const BlankSkill := Skill("", None)

  /** "Add Skill" is shown only while there are fewer skills than this. */
  const SkillButtonLimit := 5

  /** The form's default values: every text empty, one blank entry in each
      list, and empty notes. */
  const Defaults := CompleteForm(
    PersonalInfo("", "", ""),
    Address("", "", "", ""),
    [BlankEducation],
    [BlankSkill],
    Some(""))

  /** Submitting the untouched form is rejected: the required texts, the ZIP
      code, the year and the level of the first entries are reported, while
      both lists meet their length rules and the empty notes pass. */
  lemma DefaultsRejected(currentYear: int, isEmail: string -> bool)
    ensures Validate(Defaults, currentYear, isEmail) != map[]
    ensures Issues(Validate(Defaults, currentYear, isEmail), [PersonalInfoKey, Key("firstName")]) == {FirstNameRequired}
    ensures Issues(Validate(Defaults, currentYear, isEmail), [PersonalInfoKey, Key("lastName")]) == {LastNameRequired}
    ensures Issues(Validate(Defaults, currentYear, isEmail), [AddressKey, Key("zipCode")]) == {InvalidZipCode}
    ensures Issues(Validate(Defaults, currentYear, isEmail), [EducationKey]) == {}
    ensures Issues(Validate(Defaults, currentYear, isEmail), [EducationKey, Idx(0), Key("graduationYear")]) ==
      {LibraryDefault(Required)}
    ensures Issues(Validate(Defaults, currentYear, isEmail), [SkillsKey]) == {}
    ensures Issues(Validate(Defaults, currentYear, isEmail), [SkillsKey, Idx(0), Key("level")]) == {InvalidSkillLevel}
    ensures Issues(Validate(Defaults, currentYear, isEmail), [NotesKey]) == {}
  {
    BlankFormRejected(Defaults, currentYear, isEmail);
  }

  lemma BlankFormRejected(f: CompleteForm, currentYear: int, isEmail: string -> bool)
    requires f.personalInfo.firstName == "" && f.personalInfo.lastName == "" && f.address.zipCode == ""
    requires f.education == [BlankEducation] && f.skills == [BlankSkill] && f.additionalNotes == Some("")
    ensures Validate(f, currentYear, isEmail) != map[]
    ensures Issues(Validate(f, currentYear, isEmail), [PersonalInfoKey, Key("firstName")]) == {FirstNameRequired}
    ensures Issues(Validate(f, currentYear, isEmail), [PersonalInfoKey, Key("lastName")]) == {LastNameRequired}
    ensures Issues(Validate(f, currentYear, isEmail), [AddressKey, Key("zipCode")]) == {InvalidZipCode}
    ensures Issues(Validate(f, currentYear, isEmail), [EducationKey]) == {}
    ensures Issues(Validate(f, currentYear, isEmail), [EducationKey, Idx(0), Key("graduationYear")]) ==
      {LibraryDefault(Required)}
    ensures Issues(Validate(f, currentYear, isEmail), [SkillsKey]) == {}
    ensures Issues(Validate(f, currentYear, isEmail), [SkillsKey, Idx(0), Key("level")]) == {InvalidSkillLevel}
    ensures Issues(Validate(f, currentYear, isEmail), [NotesKey]) == {}
  {
    BlankDetailsRejected(f, currentYear, isEmail);
    BlankEntriesRejected(f, currentYear, isEmail);
    NotesReported(f, currentYear, isEmail);
  }

  lemma BlankDetailsRejected(f: CompleteForm, currentYear: int, isEmail: string -> bool)
    requires f.personalInfo.firstName == "" && f.personalInfo.lastName == "" && f.address.zipCode == ""
    ensures Validate(f, currentYear, isEmail) != map[]
    ensures Issues(Validate(f, currentYear, isEmail), [PersonalInfoKey, Key("firstName")]) == {FirstNameRequired}
    ensures Issues(Validate(f, currentYear, isEmail), [PersonalInfoKey, Key("lastName")]) == {LastNameRequired}
    ensures Issues(Validate(f, currentYear, isEmail), [AddressKey, Key("zipCode")]) == {InvalidZipCode}
  {
    ObjectFieldReported(f, currentYear, isEmail, Key("firstName"));
    ObjectFieldReported(f, currentYear, isEmail, Key("lastName"));
    ObjectFieldReported(f, currentYear, isEmail, Key("zipCode"));
  }

  lemma BlankEntriesRejected(f: CompleteForm, currentYear: int, isEmail: string -> bool)
    requires |f.education| == 1 && f.education[0].graduationYear.Absent?
    requires |f.skills| == 1 && f.skills[0].level.None?
    ensures Issues(Validate(f, currentYear, isEmail), [EducationKey]) == {}
    ensures Issues(Validate(f, currentYear, isEmail), [EducationKey, Idx(0), Key("graduationYear")]) ==
      {LibraryDefault(Required)}
    ensures Issues(Validate(f, currentYear, isEmail), [SkillsKey]) == {}
    ensures Issues(Validate(f, currentYear, isEmail), [SkillsKey, Idx(0), Key("level")]) == {InvalidSkillLevel}
  {
    EditedListLengths(f, currentYear, isEmail);
    BlankYear(f, currentYear, isEmail);
    BlankLevel(f, currentYear, isEmail);
  }

  lemma BlankYear(f: CompleteForm, currentYear: int, isEmail: string -> bool)
    requires |f.education| == 1 && f.education[0].graduationYear.Absent?
    ensures Issues(Validate(f, currentYear, isEmail), [EducationKey, Idx(0), Key("graduationYear")]) ==
      {LibraryDefault(Required)}
  {
    EducationFieldsReported(f, currentYear, isEmail, 0);
  }

  lemma BlankLevel(f: CompleteForm, currentYear: int, isEmail: string -> bool)
    requires |f.skills| == 1 && f.skills[0].level.None?
    ensures Issues(Validate(f, currentYear, isEmail), [SkillsKey, Idx(0), Key("level")]) == {InvalidSkillLevel}
  {
    SkillFieldReported(f, currentYear, isEmail, 0, Key("level"));
    assert InvalidSkillLevel in LevelIssues(f.skills[0].level);
  }

  /** Whatever the buttons did, the education list is never reported as
      empty and the skills list never as missing; only the upper bound on
      skills, which the buttons allow past, can still be reported. */
  lemma EditedListLengths(f: CompleteForm, currentYear: int, isEmail: string -> bool)
    requires |f.education| >= 1 && 1 <= |f.skills| <= SkillButtonLimit
    ensures Issues(Validate(f, currentYear, isEmail), [EducationKey]) == {}
    ensures Issues(Validate(f, currentYear, isEmail), [SkillsKey]) ==
      if |f.skills| > MaxSkills then {TooManySkills} else {}
  {
    ArrayLengthsReported(f, currentYear, isEmail);
    NonEmptySkillCount(|f.skills|);
  }

  /** The two lists `useFieldArray` keeps for the form. */
  class ListEditor {
    var education: seq<Education>
    var skills: seq<Skill>

    /** What the buttons guarantee: the first entry of each list cannot be
        removed, and skills stop growing at the button's limit. */
    ghost predicate Valid()
      reads this
    {
      |education| >= 1 && 1 <= |skills| <= SkillButtonLimit
    }

    /** The lists start as in the default values. */
    constructor ()
      ensures education == Defaults.education && skills == Defaults.skills
      ensures Valid()
    {
      education := [BlankEducation];
      skills := [BlankSkill];
    }

    /** "Remove" is rendered for every entry but the first. */
    predicate CanRemoveEducation(index: nat)
      reads this
    {
      0 < index < |education|
    }

    predicate CanRemoveSkill(index: nat)
      reads this
    {
      0 < index < |skills|
    }

    /** "Add Skill" is rendered while fewer than five skills exist. */
    predicate CanAddSkill()
      reads this
    {
      |skills| < SkillButtonLimit
    }

    /** "Add Education": a blank entry at the end, always offered. */
    method AppendEducation()
      requires Valid()
      modifies this
      ensures education == old(education) + [BlankEducation]
      ensures skills == old(skills)
      ensures Valid()
    {
      education := education + [BlankEducation];
    }

    /** "Remove" on an education entry: the later entries move down. */
    method RemoveEducation(index: nat)
      requires Valid() && CanRemoveEducation(index)
      modifies this
      ensures education == RemoveAt(old(education), index)
      ensures skills == old(skills)
      ensures Valid()
    {
      education := RemoveAt(education, index);
    }

    /** "Add Skill": a blank skill at the end. */
    method AppendSkill()
      requires Valid() && CanAddSkill()
      modifies this
      ensures skills == old(skills) + [BlankSkill]
      ensures education == old(education)
      ensures Valid()
    {
      skills := skills + [BlankSkill];
    }

    /** "Remove" on a skill: the later skills move down. */
    method RemoveSkill(index: nat)
      requires Valid() && CanRemoveSkill(index)
      modifies this
      ensures skills == RemoveAt(old(skills), index)
      ensures education == old(education)
      ensures Valid()
    {
      skills := RemoveAt(skills, index);
    }

    /** Typing into the inputs of entry `index`. */
    method EditEducation(index: nat, entry: Education)
      requires Valid() && index < |education|
      modifies this
      ensures education == old(education)[index := entry]
      ensures skills == old(skills)
      ensures Valid()
    {
      education := education[index := entry];
    }

    /** Typing into, or selecting for, skill `index`. */
    method EditSkill(index: nat, skill: Skill)
      requires Valid() && index < |skills|
      modifies this
      ensures skills == old(skills)[index := skill]
      ensures education == old(education)
      ensures Valid()
    {
      skills := skills[index := skill];
    }

    /** Submitting the form with these lists: accepted exactly when every
      rule holds; when rejected, it returns the schema's error tree for the
      submitted form, in which the list lengths can only draw the
      "Maximum 3 skills allowed" message. */
    method Submit(personal: PersonalInfo, address: Address, notes: Option<string>, currentYear: int, isEmail: string -> bool)
      returns (r: Outcome<CompleteForm>)
      requires Valid()
      ensures r.Accepted? <==> Passes(CompleteForm(personal, address, education, skills, notes), currentYear, isEmail)
      ensures r.Accepted? ==> r.data == CompleteForm(personal, address, education, skills, notes)
      ensures r.Rejected? ==> r.errors == Validate(CompleteForm(personal, address, education, skills, notes), currentYear, isEmail)
      ensures r.Rejected? ==> WellFormed(r.errors)
      ensures r.Rejected? ==> Issues(r.errors, [EducationKey]) == {}
      ensures r.Rejected? ==> Issues(r.errors, [SkillsKey]) == if |skills| > MaxSkills then {TooManySkills} else {}
    {
      var form := CompleteForm(personal, address, education, skills, notes);
      var errs := Validate(form, currentYear, isEmail);
      EditedListLengths(form, currentYear, isEmail);
      r := Resolve(form, errs);
    }
  }

  /** The buttons let the user reach four and five skills, both of which the
      schema rejects at the skills list itself. */
  method SkillsPastTheSchemaLimit() returns (four: seq<Skill>, five: seq<Skill>)
    ensures |four| == MaxSkills + 1 && |five| == SkillButtonLimit
    ensures Issues(SkillListErrors(four), []) == {TooManySkills}
    ensures Issues(SkillListErrors(five), []) == {TooManySkills}
  {
    var lists := new ListEditor();
    lists.AppendSkill();
    lists.AppendSkill();
    lists.AppendSkill();
    four := lists.skills;
    lists.AppendSkill();
    five := lists.skills;
    assert !lists.CanAddSkill();
    assert SkillCountIssues(4) == {TooManySkills} by {
      assert TooManySkills in SkillCountIssues(4);
    }
    assert SkillCountIssues(5) == {TooManySkills} by {
      assert TooManySkills in SkillCountIssues(5);
    }
  }
}
