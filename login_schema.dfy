/**
 * The login form's schema: an object with two string fields (other keys are
 * dropped from the parsed value, not rejected, and are not modelled). The email
 * must have the email format (zod's predicate, a parameter here) and be
 * non-empty; the password must be at least 5 UTF-16 code units long and
 * contain a lowercase ASCII letter. Every failed check is reported.
 */
module LoginSchema {
  const EmailFormatMessage: string := "Please enter a valid email address"
  const EmailEmptyMessage: string := "Reg_no must be at least 1 character"
  const PasswordLengthMessage: string := "Password must be at least 5 characters"
  const PasswordLowercaseMessage: string := "Password must contain a lowercase character"

  /** The two fields the schema has. */
  datatype LoginForm = LoginForm(email: string, password: string)

  /** A validation issue: the field it is about and its message. */
  datatype Issue = Issue(path: string, message: string)

  /** The length JavaScript reports: characters outside the Basic Multilingual Plane take two code units. */
  function Utf16Length(s: string): (n: nat)
    decreases |s|
  {
    if s == [] then 0 else (if s[0] as int > 0xFFFF then 2 else 1) + Utf16Length(s[1..])
  }

  /** No string is shorter in code units than in characters, nor more than twice as long. */
  lemma {:induction false} Utf16LengthBounds(s: string)
    ensures |s| <= Utf16Length(s) <= 2 * |s|
    decreases |s|
  {
    if s != [] {
      Utf16LengthBounds(s[1..]);
    }
  }

  /** `/[a-z]/` finds a match. */
  predicate HasLowercase(s: string) {
    exists i :: 0 <= i < |s| && 'a' <= s[i] <= 'z'
  }

  /** The email's issues, in the schema's order: the format check, then non-emptiness. */
  function EmailIssues(email: string, isEmail: string -> bool): (issues: seq<Issue>)
    ensures (issues == []) <==> isEmail(email) && |email| > 0
    ensures Issue("email", EmailFormatMessage) in issues <==> !isEmail(email)
    ensures Issue("email", EmailEmptyMessage) in issues <==> email == ""
  {
    (if isEmail(email) then [] else [Issue("email", EmailFormatMessage)])
      + (if |email| == 0 then [Issue("email", EmailEmptyMessage)] else [])
  }

  /** The password's issues, in the schema's order: the length check, then the lowercase check. */
  function PasswordIssues(password: string): (issues: seq<Issue>)
    ensures (issues == []) <==> Utf16Length(password) >= 5 && HasLowercase(password)
    ensures Issue("password", PasswordLengthMessage) in issues <==> Utf16Length(password) < 5
    ensures Issue("password", PasswordLowercaseMessage) in issues <==> !HasLowercase(password)
  {
    (if Utf16Length(password) < 5 then [Issue("password", PasswordLengthMessage)] else [])
      + (if HasLowercase(password) then [] else [Issue("password", PasswordLowercaseMessage)])
  }

  /** `loginSchema.safeParse(form)`: the issues of both fields. */
  function Validate(form: LoginForm, isEmail: string -> bool): (issues: seq<Issue>)
    ensures |issues| <= 4
    ensures forall i :: 0 <= i < |issues| ==> issues[i].path in {"email", "password"}
    ensures forall i, j :: 0 <= i < j < |issues| && issues[j].path == "email" ==> issues[i].path == "email"
    ensures forall m :: Issue("email", m) in issues <==> Issue("email", m) in EmailIssues(form.email, isEmail)
    ensures forall m :: Issue("password", m) in issues <==> Issue("password", m) in PasswordIssues(form.password)
  {
    var e, p := EmailIssues(form.email, isEmail), PasswordIssues(form.password);
    assert forall i :: 0 <= i < |e| ==> e[i].path == "email";
    assert forall i :: 0 <= i < |p| ==> p[i].path == "password";
    assert |e| <= 2 && |p| <= 2;
    EmailIssues(form.email, isEmail) + PasswordIssues(form.password)
  }

  /** The form is accepted exactly when its email is a non-empty email and its password is long enough and has a lowercase letter. */
  lemma AcceptsIff(form: LoginForm, isEmail: string -> bool)
    ensures Validate(form, isEmail) == [] <==>
      isEmail(form.email) && form.email != "" && Utf16Length(form.password) >= 5 && HasLowercase(form.password)
  {
  }

  /** An empty email is always rejected, whatever the email predicate says about it. */
  lemma EmptyEmailRejected(password: string, isEmail: string -> bool)
    ensures Issue("email", EmailEmptyMessage) in Validate(LoginForm("", password), isEmail)
  {
    assert Issue("email", EmailEmptyMessage) in EmailIssues("", isEmail);
  }

  /** Five characters always pass the length check; so does a letter and two astral characters, three characters but five code units. */
  lemma LengthCountsCodeUnits(password: string)
    requires |password| >= 5
    ensures Issue("password", PasswordLengthMessage) !in PasswordIssues(password)
    ensures PasswordIssues("a\U{1F600}\U{1F600}") == []
  {
    Utf16LengthBounds(password);
    var p := "a\U{1F600}\U{1F600}";
    assert p[1..] == "\U{1F600}\U{1F600}" && p[2..] == "\U{1F600}";
    assert Utf16Length(p) == 5;
    assert 'a' <= p[0] <= 'z';
  }
}
