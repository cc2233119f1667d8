/** The three form schemas: sign-in, sign-up (with its password-confirmation
    refinement) and the student profile. A schema's outcome is the list of
    issues it reports, in the order the schema checks them; a form is accepted
    when that list is empty. Absent fields are `None`; the e-mail format check
    is the abstract predicate `isEmail`. Lengths count characters. */
module Validator {
  import opened Js
  import Schema

  /** One reported problem: the field it is attached to and its message. */
  datatype Issue = Issue(path: string, message: string)

  const RequiredMessage: string := "Required"
  const InvalidEmailMessage: string := "Invalid email"
  const MismatchMessage: string := "Passwords don't match"

  /** A required string field with a minimum length. */
  function MinIssues(path: string, v: Option<string>, min: nat, message: string): (issues: seq<Issue>)
    ensures issues == [] <==> v.Some? && |v.value| >= min
    ensures forall k :: 0 <= k < |issues| ==> issues[k].path == path
  {
    if v.None? then [Issue(path, RequiredMessage)]
    else if |v.value| >= min then []
    else [Issue(path, message)]
  }

  /** `z.string().email().min(3, ...)`: both checks run and report separately. */
  function EmailIssues(v: Option<string>, isEmail: string -> bool): (issues: seq<Issue>)
    ensures issues == [] <==> v.Some? && isEmail(v.value) && |v.value| >= 3
    ensures forall k :: 0 <= k < |issues| ==> issues[k].path == "email"
  {
    if v.None? then [Issue("email", RequiredMessage)]
    else
      (if isEmail(v.value) then [] else [Issue("email", InvalidEmailMessage)])
      + (if |v.value| >= 3 then [] else [Issue("email", "Email must be at least 3 characters")])
  }

  // ----- Sign-in -----

  datatype SignInInput = SignInInput(email: Option<string>, password: Option<string>)

  function SignInIssues(input: SignInInput, isEmail: string -> bool): (issues: seq<Issue>)
    ensures forall k :: 0 <= k < |issues| ==> issues[k].path == "email" || issues[k].path == "password"
  {
    EmailIssues(input.email, isEmail)
    + MinIssues("password", input.password, 3, "Password must be at least 3 characters")
  }

  /** Sign-in accepts a well-formed e-mail of at least three characters and a
      password of at least three characters. */
  lemma SignInAcceptedIff(input: SignInInput, isEmail: string -> bool)
    ensures SignInIssues(input, isEmail) == [] <==>
      && input.email.Some? && isEmail(input.email.value) && |input.email.value| >= 3
      && input.password.Some? && |input.password.value| >= 3
  {
  }

  // ----- Sign-up -----

  datatype SignUpInput = SignUpInput(
    name: Option<string>,
    email: Option<string>,
    password: Option<string>,
    confirmPassword: Option<string>)

  predicate AllPresent(input: SignUpInput) {
    input.name.Some? && input.email.Some? && input.password.Some? && input.confirmPassword.Some?
  }

  function SignUpFieldIssues(input: SignUpInput, isEmail: string -> bool): seq<Issue> {
    MinIssues("name", input.name, 3, "Name must be at least 3 characters")
    + EmailIssues(input.email, isEmail)
    + MinIssues("password", input.password, 3, "Password must be at least 3 characters")
    + MinIssues("confirmPassword", input.confirmPassword, 3, "Confirm password must be at least 3 characters")
  }

  /** The object's field checks, then the refinement. A missing field aborts
      the object and the refinement does not run; a too-short value does not
      abort, so the refinement still runs and adds its own issue. */
  function SignUpIssues(input: SignUpInput, isEmail: string -> bool): (issues: seq<Issue>)
    ensures forall k :: 0 <= k < |issues| ==> issues[k].path in {"name", "email", "password", "confirmPassword"}
    ensures (exists k :: 0 <= k < |issues| && issues[k].message == MismatchMessage) ==>
      AllPresent(input) && input.password.value != input.confirmPassword.value
  {
    var fieldIssues := SignUpFieldIssues(input, isEmail);
    if !AllPresent(input) then fieldIssues
    else if input.password.value == input.confirmPassword.value then fieldIssues
    else fieldIssues + [Issue("confirmPassword", MismatchMessage)]
  }

  /** Sign-up accepts exactly: name, e-mail, password and confirmation present,
      each at least three characters, a well-formed e-mail, and a confirmation
      equal to the password. */
  lemma SignUpAcceptedIff(input: SignUpInput, isEmail: string -> bool)
    ensures SignUpIssues(input, isEmail) == [] <==>
      && AllPresent(input)
      && |input.name.value| >= 3
      && isEmail(input.email.value) && |input.email.value| >= 3
      && |input.password.value| >= 3 && |input.confirmPassword.value| >= 3
      && input.password.value == input.confirmPassword.value
  {
    var m1 := MinIssues("name", input.name, 3, "Name must be at least 3 characters");
    var m2 := EmailIssues(input.email, isEmail);
    var m3 := MinIssues("password", input.password, 3, "Password must be at least 3 characters");
    var m4 := MinIssues("confirmPassword", input.confirmPassword, 3, "Confirm password must be at least 3 characters");
    assert SignUpFieldIssues(input, isEmail) == m1 + m2 + m3 + m4;
    assert SignUpFieldIssues(input, isEmail) == [] <==> m1 == [] && m2 == [] && m3 == [] && m4 == [];
  }

  /** A mismatch is reported on the confirmation field, and it is reported even
      when other fields are too short. */
  lemma MismatchReportedOnConfirm(input: SignUpInput, isEmail: string -> bool)
    requires AllPresent(input) && input.password.value != input.confirmPassword.value
    ensures Issue("confirmPassword", MismatchMessage) in SignUpIssues(input, isEmail)
    ensures forall k :: 0 <= k < |SignUpIssues(input, isEmail)| ==>
      SignUpIssues(input, isEmail)[k].message == MismatchMessage ==>
      SignUpIssues(input, isEmail)[k].path == "confirmPassword"
  {
    var issues := SignUpIssues(input, isEmail);
    assert issues[|issues| - 1] == Issue("confirmPassword", MismatchMessage);
  }

  // ----- Student profile -----

  /** The literal characters of the username pattern's class beyond letters,
      digits, '_' and '-', as the code points the source file holds. */
  const UsernameLiterals: set<char> := {
    '\U{11F}', '\U{178}', '\U{152}', '\U{161}', '\U{20AC}', '\U{201D}',
    '\U{A5}', '\U{2C6}', '\U{2019}', '\U{AB}', '\U{E2}', '\U{AD}' }

  predicate UsernameChar(c: char) {
    IsUpper(c) || IsLower(c) || IsDigit(c) || c == '_' || c == '-' || c in UsernameLiterals
  }

  /** `^[...]+$`: non-empty and every character in the class. */
  predicate MatchesUsernamePattern(s: string) {
    |s| > 0 && forall k :: 0 <= k < |s| ==> UsernameChar(s[k])
  }

  const AgeGroups: seq<string> := ["5-7", "8-10", "11-13", "14-16", "17-19", "20-24"]

  /** The message the enum check reports for a value outside the six brackets. */
  function InvalidAgeGroupMessage(received: string): string {
    "Invalid enum value. Expected '5-7' | '8-10' | '11-13' | '14-16' | '17-19' | '20-24', received '"
    + received + "'"
  }

  datatype ProfileInput = ProfileInput(
    username: Option<string>,
    grade: Option<string>,
    ageGroup: Option<string>,
    school: Option<string>,
    avatarColor: Option<string>)

  /** The data an accepted profile form yields. */
  datatype ProfileFormData = ProfileFormData(
    username: string,
    grade: string,
    ageGroup: string,
    school: Option<string>,
    avatarColor: Option<string>)

  function UsernameIssues(v: Option<string>): (issues: seq<Issue>)
    ensures issues == [] <==> v.Some? && 3 <= |v.value| <= 20 && MatchesUsernamePattern(v.value)
    ensures forall k :: 0 <= k < |issues| ==> issues[k].path == "username"
  {
    if v.None? then [Issue("username", RequiredMessage)]
    else
      var u := v.value;
      (if |u| >= 3 then [] else [Issue("username", "Username must be at least 3 characters long")])
      + (if |u| <= 20 then [] else [Issue("username", "Username cannot be longer than 20 characters")])
      + (if MatchesUsernamePattern(u) then []
         else [Issue("username", "Username can only contain letters, numbers, emoji, underscores and hyphens")])
  }

  function AgeGroupIssues(v: Option<string>): (issues: seq<Issue>)
    ensures issues == [] <==> v.Some? && v.value in AgeGroups
    ensures forall k :: 0 <= k < |issues| ==> issues[k].path == "ageGroup"
  {
    if v.None? then [Issue("ageGroup", "Please select your age bracket")]
    else if v.value in AgeGroups then []
    else [Issue("ageGroup", InvalidAgeGroupMessage(v.value))]
  }

  /** Issues of the profile schema; `school` and `avatarColor` are optional
      strings and never report anything. */
  function ProfileIssues(input: ProfileInput): (issues: seq<Issue>)
    ensures forall k :: 0 <= k < |issues| ==> issues[k].path in {"username", "grade", "ageGroup"}
  {
    UsernameIssues(input.username)
    + MinIssues("grade", input.grade, 1, "Please select your grade")
    + AgeGroupIssues(input.ageGroup)
  }

  /** Parsing the profile form: the typed data when there is no issue. */
  function ParseProfile(input: ProfileInput): (r: Option<ProfileFormData>)
    ensures r.Some? <==> ProfileIssues(input) == []
    ensures r.Some? ==>
      && r.value.username == input.username.value && r.value.grade == input.grade.value
      && r.value.ageGroup == input.ageGroup.value
      && r.value.school == input.school && r.value.avatarColor == input.avatarColor
  {
    if ProfileIssues(input) == [] then
      Some(ProfileFormData(input.username.value, input.grade.value, input.ageGroup.value,
                           input.school, input.avatarColor))
    else None
  }

  /** The profile form is accepted exactly when the username has 3 to 20
      characters all in the pattern's class, the grade is non-empty and the age
      group is one of the six brackets; school and avatar colour are free. */
  lemma ProfileAcceptedIff(input: ProfileInput)
    ensures ProfileIssues(input) == [] <==>
      && input.username.Some? && 3 <= |input.username.value| <= 20
      && (forall k :: 0 <= k < |input.username.value| ==> UsernameChar(input.username.value[k]))
      && input.grade.Some? && input.grade.value != ""
      && input.ageGroup.Some? && input.ageGroup.value in AgeGroups
    ensures forall school, avatarColor ::
      ProfileIssues(input.(school := school, avatarColor := avatarColor)) == ProfileIssues(input)
  {
    var a := UsernameIssues(input.username);
    var b := MinIssues("grade", input.grade, 1, "Please select your grade");
    var c := AgeGroupIssues(input.ageGroup);
    assert ProfileIssues(input) == a + b + c;
    assert a + b + c == [] <==> a == [] && b == [] && c == [];
  }

  /** The form admits six age brackets while the profile column is declared
      with three: "14-16" passes the form. */
  lemma FormAdmitsBracketOutsideColumn()
    ensures var parsed := ParseProfile(ProfileInput(Some("ada_l"), Some("3"), Some("14-16"), None, None));
      parsed.Some? && !Schema.ColumnAgeGroup(parsed.value.ageGroup)
  {
    var u := "ada_l";
    assert forall k :: 0 <= k < |u| ==> UsernameChar(u[k]);
    assert AgeGroups[3] == "14-16";
  }
}
