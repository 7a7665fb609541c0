# Form validation lessons, modelled in Dafny

A model of the four form-validation lessons of a React tutorial application. Each lesson declares a zod schema, and react-hook-form's zod resolver checks a submitted form against it:

- Lesson 1: a name and an email.
- Lesson 2: a username, a password-strength rule, an age range, a terms checkbox and a password-confirmation check across fields.
- Lesson 3: a username checked against a list of taken names, an email and an optional bio.
- Lesson 4: a nested personal-details object and address, a ZIP-code pattern, arrays of education entries and skills with per-element rules and length bounds, and optional notes.

Lesson 4 also has a small state machine: the Add and Remove buttons grow and shrink the two arrays.

The result of validating a form is an error tree. It maps each path (object keys and array positions) to the set of messages reported there. The resolver either hands the validated data to the submit handler, or hands back the tree.

Modules:

- `ErrorTree`: paths, messages, and how objects and arrays assemble their children's trees: `Prune`, `Tree`, `ArrayTree`.
- `Ascii`: ASCII character classes and lower-casing.
- `Patterns`: the meaning of the lessons' regular expressions.
- `Rules`: the string checks the schemas chain.
- `Inputs`: optional values and number inputs.
- One module per lesson: `BasicValidation`, `AdvancedValidation`, `AsyncValidation`, `NestedValidation`.
- `FieldArrays`: the Lesson 4 list editor, a class whose `seq` fields the button methods update.

Outside inputs are parameters:

- The email grammar is a predicate `isEmail`.
- The clock reading that bounds the graduation year is `currentYear`.
- A number input yields a `NumInput`: `Absent` (undefined), `NotANumber` (NaN) or `Num(x)` with `x` a real.

Messages the lessons write out are `Custom(text)` with the exact text. Messages the lessons leave to the library are `LibraryDefault(code)`.

Where a field has several failing checks, every failing check's message is in the set at that path. zod runs all of a string's or number's checks and reports each failure; a type error (a missing value, NaN) stops at the type message.

## Model

| member | source | states |
|---|---|---|
| ErrorTree.Prune | src/lessons/Lesson1-BasicValidation.tsx:6-9 | An object whose fields are leaves reports each field's messages at that field's path and nothing else; the tree is empty exactly when every field's message set is empty, and no path carries an empty set |
| ErrorTree.TreeChild | src/lessons/Lesson4-NestedValidation.tsx:30-43 | Under a child's key, a nested object's tree holds exactly that child's own tree (the keys are distinct) |
| ErrorTree.TreeWellFormed | src/lessons/Lesson4-NestedValidation.tsx:30-43 | A nested object's tree never carries an empty message set when its children's trees do not |
| ErrorTree.TreeEmpty | src/lessons/Lesson4-NestedValidation.tsx:30-43 | A nested object's tree is empty exactly when every child's tree is empty |
| ErrorTree.TreeKeys | src/lessons/Lesson4-NestedValidation.tsx:30-43 | Every path in a nested object's tree starts with one of its children's keys |
| ErrorTree.ElementsTree | src/lessons/Lesson4-NestedValidation.tsx:37-41 | The elements' part of an array's tree reports only under in-range positions, is empty exactly when every element passes, and carries no empty message set |
| ErrorTree.ArrayTree | src/lessons/Lesson4-NestedValidation.tsx:37-41 | An array reports its own length rules' messages at the array's path, and every other path it reports starts with an in-range position; it passes exactly when those rules pass and every element passes |
| ErrorTree.ArrayElement | src/lessons/Lesson4-NestedValidation.tsx:37-41 | Under position `i` an array reports exactly element `i`'s issues |
| ErrorTree.ArrayBeyondEnd | src/lessons/Lesson4-NestedValidation.tsx:37-41 | Nothing is reported under a position past the array's end |
| ErrorTree.RemovalRenumbers | src/lessons/Lesson4-NestedValidation.tsx:37-41 | After element `r` is removed, position `i` reports what position `i` (for `i < r`) or `i + 1` (otherwise) reported before |
| ErrorTree.Resolve | src/lessons/Lesson1-BasicValidation.tsx:21-27 | The resolver accepts exactly when the tree is empty, and then passes the data on unchanged; otherwise it returns the tree |
| Ascii.ToLower | src/lessons/Lesson3-AsyncValidation.tsx:9 | `toLowerCase` keeps the length and maps each upper-case ASCII letter to its lower-case letter, leaving other characters alone |
| Ascii.ToLowerFixesLowerCase | src/lessons/Lesson3-AsyncValidation.tsx:8-9 | A string without upper-case letters (as every taken name is) is its own lower-case form |
| Ascii.ToLowerEqualsIffEqualIgnoringCase | src/lessons/Lesson3-AsyncValidation.tsx:9 | Comparing a lower-cased name with a lower-case name is comparing the two ignoring case, in both directions |
| Patterns.SearchSingle | src/lessons/Lesson2-AdvancedValidation.tsx:11-14 | An unanchored one-class pattern tests true exactly when some character of the string is in the class |
| Patterns.DigitsTimes | src/lessons/Lesson4-NestedValidation.tsx:10 | `\d{n}` matches exactly the strings of `n` ASCII digits |
| Patterns.ClassThenDigits | src/lessons/Lesson4-NestedValidation.tsx:10 | One character of a class followed by `\d{n}` matches exactly the strings of that shape |
| Patterns.DigitsThenOptional | src/lessons/Lesson4-NestedValidation.tsx:10 | `\d{n}` followed by an optional group matches exactly `n` digits followed by nothing or by a word of the group |
| Rules.MinLength | src/lessons/Lesson1-BasicValidation.tsx:7 | `.min(n)` on a string reports its message exactly when the string is shorter than `n`, and no other message |
| Rules.MaxLength | src/lessons/Lesson3-AsyncValidation.tsx:17 | `.max(n)` on a string reports its message exactly when the string is longer than `n` |
| Rules.OptionalMaxLength | src/lessons/Lesson3-AsyncValidation.tsx:23 | An absent optional string passes; a present one fails exactly when longer than `n` |
| Rules.Email | src/lessons/Lesson1-BasicValidation.tsx:8 | `.email()` reports its message exactly when the address grammar rejects the string |
| BasicValidation.Validate | src/lessons/Lesson1-BasicValidation.tsx:6-9 | "Name must be at least 2 characters" at `name` exactly when the name is shorter than 2; "Invalid email address" at `email` exactly when the email is invalid; no other path; empty exactly when both rules hold |
| BasicValidation.Submit | src/lessons/Lesson1-BasicValidation.tsx:21-27 | The handler receives the name/email pair exactly when both rules hold; otherwise a non-empty tree is returned |
| AdvancedValidation.PasswordPatterns | src/lessons/Lesson2-AdvancedValidation.tsx:11-14 | The four password regexes (`[A-Z]`, `[a-z]`, `[0-9]`, `[^A-Za-z0-9]`) test true exactly when the password has an upper-case letter, a lower-case letter, a digit, or a character outside those classes |
| AdvancedValidation.PasswordIssues | src/lessons/Lesson2-AdvancedValidation.tsx:8-14 | Each of the five password messages is present exactly when its check fails; no other message; the password passes exactly when it has 8+ characters and all four character kinds |
| AdvancedValidation.SinglePasswordFailure | src/lessons/Lesson2-AdvancedValidation.tsx:10-14 | A password failing exactly one of the five checks gets exactly that check's message |
| AdvancedValidation.AgeIssues | src/lessons/Lesson2-AdvancedValidation.tsx:16-21 | The age passes exactly when it is an integer in [18, 120]; a missing age gives only the library's required message and NaN only "Age must be a number"; "Age must be a whole number", "Age must be positive", "You must be at least 18 years old" and "Age must be valid" each appear exactly when `.int()`, `.positive()`, `.min(18)` and `.max(120)` fail on a number; no other message; the positive message never appears without the minimum-18 one, and every accepted age is positive |
| AdvancedValidation.TermsIssues | src/lessons/Lesson2-AdvancedValidation.tsx:22-24 | The checkbox passes exactly when ticked; otherwise "You must accept the terms and conditions" |
| AdvancedValidation.FieldErrors | src/lessons/Lesson2-AdvancedValidation.tsx:6-25 | Each field's issues at its own path (username length, password, age, terms); no path for `confirmPassword`; empty exactly when every field rule holds |
| AdvancedValidation.Validate | src/lessons/Lesson2-AdvancedValidation.tsx:6-29 | The field issues as above, plus "Passwords don't match" at `confirmPassword` only, exactly when the fields pass and the two passwords differ; empty exactly when the fields pass and the passwords are equal |
| AdvancedValidation.Submit | src/lessons/Lesson2-AdvancedValidation.tsx:41-52 | The handler receives the form exactly when every field rule holds and the passwords are equal |
| AdvancedValidation.UntouchedTermsRejected | src/lessons/Lesson2-AdvancedValidation.tsx:43-45 | With the checkbox left at its default (false), the terms message is reported and the form is rejected |
| AsyncValidation.CheckUsernameAvailability | src/lessons/Lesson3-AsyncValidation.tsx:6-11 | A name is unavailable exactly when it equals one of admin, user, test, moderator, system ignoring case |
| AsyncValidation.TakenMatchIgnoringCase | src/lessons/Lesson3-AsyncValidation.tsx:8-9 | The lower-cased name is on the taken list exactly when the name equals a taken name ignoring case |
| AsyncValidation.AvailabilityIgnoresCase | src/lessons/Lesson3-AsyncValidation.tsx:9 | Names differing only in case get the same availability |
| AsyncValidation.AvailabilityExamples | src/lessons/Lesson3-AsyncValidation.tsx:8-9 | "admin", "ADMIN" and "Admin" are taken; "freshname123" is available |
| AsyncValidation.TakenNamesWithinLengthBounds | src/lessons/Lesson3-AsyncValidation.tsx:8-17 | Every taken name already satisfies the 3..20 length bounds |
| AsyncValidation.UsernameIssues | src/lessons/Lesson3-AsyncValidation.tsx:14-21 | Too-short, too-long and taken messages each appear exactly when their condition holds; the username passes exactly when 3..20 characters long and available |
| AsyncValidation.Validate | src/lessons/Lesson3-AsyncValidation.tsx:13-24 | Username issues at `username`, "Invalid email address" at `email` exactly when invalid, "Bio must be at most 200 characters" at `bio` exactly when a bio longer than 200 is given; empty exactly when all hold |
| AsyncValidation.Submit | src/lessons/Lesson3-AsyncValidation.tsx:36-45 | The handler receives the form exactly when the tree is empty |
| NestedValidation.ZipCodePattern | src/lessons/Lesson4-NestedValidation.tsx:10 | `^\d{5}(-\d{4})?$` accepts exactly five ASCII digits, or five digits, a hyphen and four digits |
| NestedValidation.ZipCodeExamples | src/lessons/Lesson4-NestedValidation.tsx:10 | "12345" and "12345-6789" are ZIP codes; "1234", "12345-678" and "12345 6789" are not |
| NestedValidation.YearIssues | src/lessons/Lesson4-NestedValidation.tsx:16-20 | The year passes exactly when it is an integer between 1900 and the current year; a missing year or NaN gives only the library's type message; too-early, future and non-integer messages each appear exactly when their check fails; a number draws no message but those three |
| NestedValidation.LevelIssues | src/lessons/Lesson4-NestedValidation.tsx:25-27 | The level passes exactly when it is one of Beginner/Intermediate/Advanced/Expert; otherwise only "Please select a valid skill level" |
| NestedValidation.UnselectedLevelRejected | src/lessons/Lesson4-NestedValidation.tsx:25-27 | An unset level and the placeholder option's empty value are both rejected; "Expert" passes |
| NestedValidation.EducationCountIssues | src/lessons/Lesson4-NestedValidation.tsx:37-38 | "At least one education entry is required" exactly when the list is empty |
| NestedValidation.SkillCountIssues | src/lessons/Lesson4-NestedValidation.tsx:39-41 | "At least one skill is required" exactly when there are no skills, "Maximum 3 skills allowed" exactly when there are more than 3 |
| NestedValidation.NonEmptySkillCount | src/lessons/Lesson4-NestedValidation.tsx:39-41 | A non-empty skills list can only draw the maximum-3 message |
| NestedValidation.PersonalInfoErrors | src/lessons/Lesson4-NestedValidation.tsx:31-35 | First and last name "… is required" exactly when empty; "Invalid email address" exactly when invalid; each at its own key; empty exactly when all hold |
| NestedValidation.AddressErrors | src/lessons/Lesson4-NestedValidation.tsx:6-11 | Street, city, state "… is required" exactly when empty (whitespace passes); "Invalid ZIP code format" exactly when the ZIP is not of either form; empty exactly when all hold |
| NestedValidation.EducationErrors | src/lessons/Lesson4-NestedValidation.tsx:13-21 | Institution and degree "… is required" exactly when empty; the year's issues at `graduationYear`; empty exactly when all hold |
| NestedValidation.SkillErrors | src/lessons/Lesson4-NestedValidation.tsx:23-28 | "Skill name is required" exactly when the name is empty; the level's issues at `level`; empty exactly when both hold |
| NestedValidation.EducationListErrors | src/lessons/Lesson4-NestedValidation.tsx:37-38 | The education array's length message at its own path; it passes exactly when non-empty with every entry passing |
| NestedValidation.SkillListErrors | src/lessons/Lesson4-NestedValidation.tsx:39-41 | The skills array's length messages at its own path; it passes exactly when it has 1 to 3 skills, each passing |
| NestedValidation.EducationEntry | src/lessons/Lesson4-NestedValidation.tsx:37 | Under position `i` the education array reports entry `i`'s issues, and nothing past the last entry |
| NestedValidation.SkillEntry | src/lessons/Lesson4-NestedValidation.tsx:39 | Under position `i` the skills array reports skill `i`'s issues, and nothing past the last skill |
| NestedValidation.RemoveAt | src/lessons/Lesson4-NestedValidation.tsx:229 | Removing position `r` leaves one element fewer; earlier elements stay put and later ones move down one position |
| NestedValidation.Sections | src/lessons/Lesson4-NestedValidation.tsx:30-43 | The form's five sections under distinct keys, each holding its own tree |
| NestedValidation.Validate | src/lessons/Lesson4-NestedValidation.tsx:30-43 | Every reported path starts with one of the five section keys and carries a message; the tree is empty exactly when every rule of every section holds |
| NestedValidation.SectionLookup | src/lessons/Lesson4-NestedValidation.tsx:30-43 | Under each section's key the form reports exactly that section's issues |
| NestedValidation.ObjectFieldReported | src/lessons/Lesson4-NestedValidation.tsx:31-36 | Under `personalInfo.field` and `address.field` the form reports that object's issues for the field |
| NestedValidation.ObjectFieldsReported | src/lessons/Lesson4-NestedValidation.tsx:6-36 | Each of the seven fields of the two nested objects carries its message at its own full path exactly when its rule fails; the ZIP is judged by the regex itself |
| NestedValidation.ArrayLengthsReported | src/lessons/Lesson4-NestedValidation.tsx:37-41 | The arrays' length messages are reported at `education` and `skills` themselves |
| NestedValidation.NotesReported | src/lessons/Lesson4-NestedValidation.tsx:42 | "Notes cannot exceed 500 characters" at `additionalNotes` exactly when notes longer than 500 are given |
| NestedValidation.EducationEntryReported | src/lessons/Lesson4-NestedValidation.tsx:189-221 | Under `education.i` the form reports entry `i`'s issues and no other entry's; past the end, nothing |
| NestedValidation.SkillEntryReported | src/lessons/Lesson4-NestedValidation.tsx:250-276 | Under `skills.i` the form reports skill `i`'s issues and no other skill's; past the end, nothing |
| NestedValidation.EducationFieldReported | src/lessons/Lesson4-NestedValidation.tsx:197-221 | Under `education.i.field` the form reports entry `i`'s issues for that field |
| NestedValidation.EducationFieldsReported | src/lessons/Lesson4-NestedValidation.tsx:13-21 | Institution, degree and graduation year of entry `i` are reported at `education.i.<field>` with their own messages |
| NestedValidation.SkillFieldReported | src/lessons/Lesson4-NestedValidation.tsx:258-276 | Under `skills.i.field` the form reports skill `i`'s issues for that field |
| NestedValidation.SkillFieldsReported | src/lessons/Lesson4-NestedValidation.tsx:23-28 | Name and level of skill `i` are reported at `skills.i.<field>` with their own messages |
| NestedValidation.RemovingEducationRenumbers | src/lessons/Lesson4-NestedValidation.tsx:225-233 | After removing entry `r`, each remaining entry's issues are reported at its new position |
| NestedValidation.RemovingSkillRenumbers | src/lessons/Lesson4-NestedValidation.tsx:280-288 | After removing skill `r`, each remaining skill's issues are reported at its new position |
| FieldArrays.DefaultsRejected | src/lessons/Lesson4-NestedValidation.tsx:57-72 | Submitting the default values is rejected: names required, ZIP invalid, the first entry's year missing and the first skill's level unselected; both list lengths and the empty notes pass |
| FieldArrays.BlankFormRejected | src/lessons/Lesson4-NestedValidation.tsx:57-72 | Any form whose names and ZIP are empty, with one blank entry and one blank skill, draws the same messages |
| FieldArrays.BlankDetailsRejected | src/lessons/Lesson4-NestedValidation.tsx:6-33 | Empty names and an empty ZIP are reported at their paths |
| FieldArrays.BlankEntriesRejected | src/lessons/Lesson4-NestedValidation.tsx:69-70 | A single blank entry and a single blank skill pass the length rules but fail the year and level checks |
| FieldArrays.BlankYear | src/lessons/Lesson4-NestedValidation.tsx:16-20 | A year left undefined gets only the library's required message |
| FieldArrays.BlankLevel | src/lessons/Lesson4-NestedValidation.tsx:25-27 | A level left undefined gets "Please select a valid skill level" |
| FieldArrays.EditedListLengths | src/lessons/Lesson4-NestedValidation.tsx:37-41 | With at least one entry and 1 to 5 skills, the education list draws no length message and the skills list only "Maximum 3 skills allowed", exactly when there are more than 3 |
| FieldArrays.ListEditor.constructor | src/lessons/Lesson4-NestedValidation.tsx:69-70 | Both lists start with one blank entry, as in the default values |
| FieldArrays.ListEditor.AppendEducation | src/lessons/Lesson4-NestedValidation.tsx:236-243 | "Add Education" appends one blank entry at the end and leaves the skills alone |
| FieldArrays.ListEditor.RemoveEducation | src/lessons/Lesson4-NestedValidation.tsx:225-233 | "Remove" on entry `index > 0` takes that entry out, the later ones moving down; at least one entry remains |
| FieldArrays.ListEditor.AppendSkill | src/lessons/Lesson4-NestedValidation.tsx:292-300 | "Add Skill", offered only below 5 skills, appends one blank skill; there are never more than 5 |
| FieldArrays.ListEditor.RemoveSkill | src/lessons/Lesson4-NestedValidation.tsx:280-288 | "Remove" on skill `index > 0` takes that skill out, the later ones moving down; at least one skill remains |
| FieldArrays.ListEditor.EditEducation | src/lessons/Lesson4-NestedValidation.tsx:192-219 | Typing into entry `index` replaces that entry only |
| FieldArrays.ListEditor.EditSkill | src/lessons/Lesson4-NestedValidation.tsx:253-273 | Typing into or selecting for skill `index` replaces that skill only |
| FieldArrays.ListEditor.Submit | src/lessons/Lesson4-NestedValidation.tsx:93-96 | Submitting accepts exactly when every rule holds and then passes on the form built from the lists; when rejected, it returns the schema's own error tree for that form, in which the lists never draw the required-list messages and draw "Maximum 3 skills allowed" exactly when there are more than 3 skills |
| FieldArrays.SkillsPastTheSchemaLimit | src/lessons/Lesson4-NestedValidation.tsx:292-300 | Starting from the initial lists, "Add Skill" reaches 4 and then 5 skills, and the schema rejects both lengths with "Maximum 3 skills allowed" |

## Left out

- React rendering and wiring are not modelled: JSX, CSS classes, `useState`/`setFormData`, `reset`, `console.log`, showing a message beside its input, and the lesson switcher in `src/App.tsx`. The form values reach the model as datatypes, and submission is `Submit`.
- The order of several issues at one path is not modelled, nor which of them the UI shows first. Each path holds a set of messages.
- AdvancedValidation.Validate: the password-match check is modelled as running only when every field rule passes. Whether the library also runs it when some fields already fail (other than by a type error) is not modelled.
- AsyncValidation.UsernameIssues: the availability check is modelled as running once both length bounds hold. `TakenNamesWithinLengthBounds` shows that this makes no difference to the result.
- Library wording for messages the lessons leave unset is not modelled: the missing-value and NaN type errors and `.int()` on the graduation year. They appear as `LibraryDefault(Required)`, `LibraryDefault(InvalidType)` and `LibraryDefault(NotInteger)`.
- The email grammar is the library's regular expression and is not modelled. It is the parameter `isEmail`.
- Time and async in Lesson 3 are not modelled: the one-second delay, the promise, and disabling the button while submitting. Availability is a pure function, with no stale-result or concurrency modelling. A failing remote check cannot happen: the list is local.
- The clock (`new Date().getFullYear()`) is the parameter `currentYear`.
- JavaScript numbers are exact reals, not doubles. NaN and undefined are the separate `NumInput` cases. Infinities are not modelled.
- Ascii.ToLower: only ASCII letters are lower-cased; Unicode case mapping is not modelled. This cannot change availability: the only non-ASCII character whose lower-case form is ASCII is the KELVIN SIGN (U+212A), which becomes 'k', and no taken name contains 'k'.
- String lengths count `char`s; UTF-16 code units and surrogate pairs are not modelled.
- Stripping of unknown keys by the object schemas is not modelled. The datatypes hold exactly the schema's fields.
- `useFieldArray`'s `field.id` keys are not modelled. The list editor holds the values only.
- Paths are key/position sequences. The dotted `education.0.degree` names react-hook-form uses for registering inputs are not modelled.
