/** Lesson 2: password strength, an age range, a terms checkbox and a
    cross-field check that the confirmation repeats the password. */
module AdvancedValidation {
  import opened Ascii
  import opened Inputs
  import opened ErrorTree
  import opened Patterns
  import opened Rules

  datatype AdvancedForm = AdvancedForm(
    username: string,
    password: string,
    confirmPassword: string,
    age: NumInput,
    termsAccepted: bool)

  const UsernameTooShort := Custom("Username must be at least 3 characters")
  const PasswordTooShort := Custom("Password must be at least 8 characters")
  const NoUppercase := Custom("Password must contain at least one uppercase letter")
  const NoLowercase := Custom("Password must contain at least one lowercase letter")
  const NoNumber := Custom("Password must contain at least one number")
  const NoSpecial := Custom("Password must contain at least one special character")
  const AgeNotANumber := Custom("Age must be a number")
  const AgeNotWhole := Custom("Age must be a whole number")
  const AgeNotPositive := Custom("Age must be positive")
  const AgeTooYoung := Custom("You must be at least 18 years old")
  const AgeTooOld := Custom("Age must be valid")
  const TermsNotAccepted := Custom("You must accept the terms and conditions")
  const PasswordsDontMatch := Custom("Passwords don't match")

  const UsernamePath: Path := [Key("username")]
  const PasswordPath: Path := [Key("password")]
  const ConfirmPasswordPath: Path := [Key("confirmPassword")]
  const AgePath: Path := [Key("age")]
  const TermsPath: Path := [Key("termsAccepted")]

  /** The checkbox's default value. */
  const DefaultTermsAccepted := false

  /** The four character-class patterns of the password rule. */
  const UpperPattern := Pattern(false, Single(CharClass([('A', 'Z')], false)))
  const LowerPattern := Pattern(false, Single(CharClass([('a', 'z')], false)))
  const NumberPattern := Pattern(false, Single(Digit))
  const SpecialPattern := Pattern(false, Single(CharClass([('A', 'Z'), ('a', 'z'), ('0', '9')], true)))

  predicate HasUpper(s: string) { exists i | 0 <= i < |s| :: IsUpper(s[i]) }
  predicate HasLower(s: string) { exists i | 0 <= i < |s| :: IsLower(s[i]) }
  predicate HasNumber(s: string) { exists i | 0 <= i < |s| :: IsDigit(s[i]) }

  /** "Special" is any character outside `[A-Za-z0-9]`. */
  predicate HasSpecial(s: string) { exists i | 0 <= i < |s| :: !IsAlphanumeric(s[i]) }

  /** The executable character-class checks mean what the patterns mean. */
  lemma PasswordPatterns(s: string)
    ensures Test(UpperPattern, s) <==> HasUpper(s)
    ensures Test(LowerPattern, s) <==> HasLower(s)
    ensures Test(NumberPattern, s) <==> HasNumber(s)
    ensures Test(SpecialPattern, s) <==> HasSpecial(s)
  {
    SearchSingle(UpperPattern.regex.cls, s);
    SearchSingle(LowerPattern.regex.cls, s);
    SearchSingle(NumberPattern.regex.cls, s);
    SearchSingle(SpecialPattern.regex.cls, s);
    forall c: char
      ensures InClass(UpperPattern.regex.cls, c) <==> IsUpper(c)
      ensures InClass(LowerPattern.regex.cls, c) <==> IsLower(c)
      ensures InClass(NumberPattern.regex.cls, c) <==> IsDigit(c)
      ensures InClass(SpecialPattern.regex.cls, c) <==> !IsAlphanumeric(c)
    {
      var special := SpecialPattern.regex.cls.ranges;
      assert UpperPattern.regex.cls.ranges[0] == ('A', 'Z');
      assert LowerPattern.regex.cls.ranges[0] == ('a', 'z');
      assert NumberPattern.regex.cls.ranges[0] == ('0', '9');
      assert special[0] == ('A', 'Z') && special[1] == ('a', 'z') && special[2] == ('0', '9');
    }
  }

  /** Every password check runs; each failing one contributes its message. */
  function PasswordIssues(pw: string): (msgs: set<Message>)
    ensures PasswordTooShort in msgs <==> |pw| < 8
    ensures NoUppercase in msgs <==> !HasUpper(pw)
    ensures NoLowercase in msgs <==> !HasLower(pw)
    ensures NoNumber in msgs <==> !HasNumber(pw)
    ensures NoSpecial in msgs <==> !HasSpecial(pw)
    ensures msgs <= {PasswordTooShort, NoUppercase, NoLowercase, NoNumber, NoSpecial}
    ensures msgs == {} <==> |pw| >= 8 && HasUpper(pw) && HasLower(pw) && HasNumber(pw) && HasSpecial(pw)
  {
    MinLength(pw, 8, PasswordTooShort)
    + (if HasUpper(pw) then {} else {NoUppercase})
    + (if HasLower(pw) then {} else {NoLowercase})
    + (if HasNumber(pw) then {} else {NoNumber})
    + (if HasSpecial(pw) then {} else {NoSpecial})
  }

  /** A password that fails exactly one check is told exactly that check. */
  lemma SinglePasswordFailure(pw: string)
    ensures |pw| < 8 && HasUpper(pw) && HasLower(pw) && HasNumber(pw) && HasSpecial(pw)
      ==> PasswordIssues(pw) == {PasswordTooShort}
    ensures |pw| >= 8 && !HasUpper(pw) && HasLower(pw) && HasNumber(pw) && HasSpecial(pw)
      ==> PasswordIssues(pw) == {NoUppercase}
    ensures |pw| >= 8 && HasUpper(pw) && !HasLower(pw) && HasNumber(pw) && HasSpecial(pw)
      ==> PasswordIssues(pw) == {NoLowercase}
    ensures |pw| >= 8 && HasUpper(pw) && HasLower(pw) && !HasNumber(pw) && HasSpecial(pw)
      ==> PasswordIssues(pw) == {NoNumber}
    ensures |pw| >= 8 && HasUpper(pw) && HasLower(pw) && HasNumber(pw) && !HasSpecial(pw)
      ==> PasswordIssues(pw) == {NoSpecial}
  {
  }

  /** The age rule: a missing value and NaN stop at the type check; a number
      goes through every bound, each failing one adding its message. */
  function AgeIssues(age: NumInput): (msgs: set<Message>)
    ensures msgs == {} <==> age.Num? && IsInteger(age.value) && 18.0 <= age.value <= 120.0
    ensures AgeNotANumber in msgs <==> age.NotANumber?
    ensures age.NotANumber? ==> msgs == {AgeNotANumber}
    ensures age.Absent? ==> msgs == {LibraryDefault(Required)}
    ensures AgeNotWhole in msgs <==> age.Num? && !IsInteger(age.value)
    ensures AgeNotPositive in msgs <==> age.Num? && age.value <= 0.0
    ensures AgeTooYoung in msgs <==> age.Num? && age.value < 18.0
    ensures AgeTooOld in msgs <==> age.Num? && age.value > 120.0
    ensures msgs <= {LibraryDefault(Required), AgeNotANumber, AgeNotWhole, AgeNotPositive, AgeTooYoung, AgeTooOld}
    ensures age.Num? ==> msgs <= {AgeNotWhole, AgeNotPositive, AgeTooYoung, AgeTooOld}
    ensures AgeNotPositive in msgs ==> AgeTooYoung in msgs
    ensures age.Num? && msgs == {} ==> age.value > 0.0
  {
    match age
    case Absent => {LibraryDefault(Required)}
    case NotANumber => {AgeNotANumber}
    case Num(x) =>
      (if IsInteger(x) then {} else {AgeNotWhole})
      + (if x > 0.0 then {} else {AgeNotPositive})
      + (if x >= 18.0 then {} else {AgeTooYoung})
      + (if x <= 120.0 then {} else {AgeTooOld})
  }

  /** The checkbox must be ticked. */
  function TermsIssues(accepted: bool): (msgs: set<Message>)
    ensures msgs <= {TermsNotAccepted}
    ensures msgs == {} <==> accepted
  {
    if accepted then {} else {TermsNotAccepted}
  }

  /** Every field rule holds (the confirmation has none of its own). */
  predicate FieldsPass(f: AdvancedForm) {
    |f.username| >= 3
    && PasswordIssues(f.password) == {}
    && AgeIssues(f.age) == {}
    && f.termsAccepted
  }

  /** The issues of the individual fields, each at its own path. */
  function FieldErrors(f: AdvancedForm): (errs: ErrorMap)
    ensures WellFormed(errs)
    ensures errs.Keys <= {UsernamePath, PasswordPath, AgePath, TermsPath}
    ensures Issues(errs, UsernamePath) == if |f.username| < 3 then {UsernameTooShort} else {}
    ensures Issues(errs, PasswordPath) == PasswordIssues(f.password)
    ensures Issues(errs, AgePath) == AgeIssues(f.age)
    ensures Issues(errs, TermsPath) == TermsIssues(f.termsAccepted)
    ensures errs == map[] <==> FieldsPass(f)
  {
    Prune(map[
      UsernamePath := MinLength(f.username, 3, UsernameTooShort),
      PasswordPath := PasswordIssues(f.password),
      AgePath := AgeIssues(f.age),
      TermsPath := TermsIssues(f.termsAccepted)])
  }

  /** The schema's error tree. The password-match check runs on an object
      whose fields all pass and reports at `confirmPassword` only. */
  function Validate(f: AdvancedForm): (errs: ErrorMap)
    ensures WellFormed(errs)
    ensures errs.Keys <= {UsernamePath, PasswordPath, ConfirmPasswordPath, AgePath, TermsPath}
    ensures Issues(errs, UsernamePath) == if |f.username| < 3 then {UsernameTooShort} else {}
    ensures Issues(errs, PasswordPath) == PasswordIssues(f.password)
    ensures Issues(errs, AgePath) == AgeIssues(f.age)
    ensures Issues(errs, TermsPath) == TermsIssues(f.termsAccepted)
    ensures Issues(errs, ConfirmPasswordPath) ==
      if FieldsPass(f) && f.password != f.confirmPassword then {PasswordsDontMatch} else {}
    ensures errs == map[] <==> FieldsPass(f) && f.password == f.confirmPassword
  {
    var fields := FieldErrors(f);
    if fields == map[] && f.password != f.confirmPassword then
      Prune(map[ConfirmPasswordPath := {PasswordsDontMatch}])
    else
      fields
  }

  /** What the submit handler receives. */
  function Submit(f: AdvancedForm): (r: Outcome<AdvancedForm>)
    ensures r.Accepted? <==> FieldsPass(f) && f.password == f.confirmPassword
    ensures r.Accepted? ==> r.data == f
    ensures r.Rejected? ==> r.errors == Validate(f)
  {
    Resolve(f, Validate(f))
  }

  /** A form left with its default checkbox value is never accepted. */
  lemma UntouchedTermsRejected(f: AdvancedForm)
    requires f.termsAccepted == DefaultTermsAccepted
    ensures Issues(Validate(f), TermsPath) == {TermsNotAccepted}
    ensures Submit(f).Rejected?
  {
  }
}
