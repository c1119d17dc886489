/** The sign-up form of Frontend/ordering_system/src/app/authentication/register/page.tsx:
    the schema's field checks and password confirmation, and what the page
    does with the sign-up reply.

    Each string check of the schema records its issue independently of the
    others on the same field, and the confirmation check runs after the
    field checks whatever they found. Lengths are counted in characters. */
module RegisterForm {
  import opened Wrappers
  import opened FormText

  datatype RegisterValues = RegisterValues(
    name: string,
    email: string,
    username: string,
    password: string,
    rePassword: string,
    phone: string,
    address: string)

  /** Every issue in `issues` is on `path`. */
  predicate OnPath(issues: seq<Issue>, path: string) {
    forall i :: 0 <= i < |issues| ==> issues[i].path == path
  }

  lemma {:induction false} MessagesOnPath(issues: seq<Issue>, path: string, other: string)
    requires OnPath(issues, path) && other != path
    ensures Messages(issues, other) == []
    ensures |Messages(issues, path)| == |issues|
    ensures forall i :: 0 <= i < |issues| ==> Messages(issues, path)[i] == issues[i].message
    decreases |issues|
  {
    if issues != [] {
      assert OnPath(issues[1..], path) by {
        forall i | 0 <= i < |issues[1..]| ensures issues[1..][i].path == path {
          assert issues[1..][i] == issues[i + 1];
        }
      }
      MessagesOnPath(issues[1..], path, other);
    }
  }

  function NameIssues(s: string): (issues: seq<Issue>)
    ensures OnPath(issues, "name")
  {
    Check(|s| >= 1, "name", "Name is required")
    + Check(|s| >= 2, "name", "Name must be at least 2 characters")
  }

  /** The address format check of the schema is given as `emailFormat`. */
  function EmailIssues(s: string, emailFormat: bool): (issues: seq<Issue>)
    ensures OnPath(issues, "email")
  {
    Check(|s| >= 1, "email", "Email is required")
    + Check(emailFormat, "email", "Invalid email format")
  }

  function UsernameIssues(s: string): (issues: seq<Issue>)
    ensures OnPath(issues, "username")
  {
    Check(|s| >= 1, "username", "Username is required")
    + Check(|s| >= 6, "username", "Username must be at least 6 characters")
  }

  function PasswordIssues(s: string): (issues: seq<Issue>)
    ensures OnPath(issues, "password")
  {
    Check(|s| >= 1, "password", "Password is required")
    + Check(|s| >= 6, "password", "Password must be at least 6 characters")
    + Check(PasswordPattern(s), "password", "Password must contain at least one uppercase letter and one number")
  }

  function RePasswordIssues(s: string): (issues: seq<Issue>)
    ensures OnPath(issues, "rePassword")
  {
    Check(|s| >= 1, "rePassword", "Please confirm your password")
  }

  function PhoneIssues(s: string): (issues: seq<Issue>)
    ensures OnPath(issues, "phone")
  {
    Check(|s| >= 1, "phone", "Phone is required")
    + Check(PhonePattern(s), "phone", "Invalid phone number")
  }

  function AddressIssues(s: string): (issues: seq<Issue>)
    ensures OnPath(issues, "address")
  {
    Check(|s| >= 1, "address", "Address is required")
  }

  /** The confirmation check, reported on `rePassword`. */
  function MatchIssues(v: RegisterValues): (issues: seq<Issue>)
    ensures OnPath(issues, "rePassword")
  {
    Check(v.password == v.rePassword, "rePassword", "Passwords do not match")
  }

  /** All issues the schema records, field by field in schema order. */
  function RegisterIssues(v: RegisterValues, emailFormat: bool): seq<Issue> {
    NameIssues(v.name) + EmailIssues(v.email, emailFormat) + UsernameIssues(v.username)
    + PasswordIssues(v.password) + RePasswordIssues(v.rePassword) + PhoneIssues(v.phone)
    + AddressIssues(v.address) + MatchIssues(v)
  }

  /** The form is submitted exactly when every rule holds. */
  lemma RegisterAccepted(v: RegisterValues, emailFormat: bool)
    ensures RegisterIssues(v, emailFormat) == [] <==>
              && |v.name| >= 2
              && v.email != "" && emailFormat
              && |v.username| >= 6
              && |v.password| >= 6 && PasswordPattern(v.password)
              && v.rePassword != ""
              && PhonePattern(v.phone)
              && v.address != ""
              && v.password == v.rePassword
  {
  }

  lemma SplitMessages(a: seq<Issue>, b: seq<Issue>, c: seq<Issue>, d: seq<Issue>,
                      e: seq<Issue>, f: seq<Issue>, g: seq<Issue>, h: seq<Issue>, path: string)
    ensures Messages(a + b + c + d + e + f + g + h, path)
            == Messages(a, path) + Messages(b, path) + Messages(c, path) + Messages(d, path)
             + Messages(e, path) + Messages(f, path) + Messages(g, path) + Messages(h, path)
  {
    MessagesConcat(a, b, path);
    MessagesConcat(a + b, c, path);
    MessagesConcat(a + b + c, d, path);
    MessagesConcat(a + b + c + d, e, path);
    MessagesConcat(a + b + c + d + e, f, path);
    MessagesConcat(a + b + c + d + e + f, g, path);
    MessagesConcat(a + b + c + d + e + f + g, h, path);
  }

  /** The messages recorded on one field come from that field's own checks
      (and, for `rePassword`, the confirmation check) and from nothing else. */
  lemma RegisterFieldMessages(v: RegisterValues, emailFormat: bool, path: string)
    ensures Messages(RegisterIssues(v, emailFormat), path)
            == (if path == "name" then Messages(NameIssues(v.name), path) else [])
             + (if path == "email" then Messages(EmailIssues(v.email, emailFormat), path) else [])
             + (if path == "username" then Messages(UsernameIssues(v.username), path) else [])
             + (if path == "password" then Messages(PasswordIssues(v.password), path) else [])
             + (if path == "rePassword" then Messages(RePasswordIssues(v.rePassword), path) else [])
             + (if path == "phone" then Messages(PhoneIssues(v.phone), path) else [])
             + (if path == "address" then Messages(AddressIssues(v.address), path) else [])
             + (if path == "rePassword" then Messages(MatchIssues(v), path) else [])
  {
    SplitMessages(NameIssues(v.name), EmailIssues(v.email, emailFormat), UsernameIssues(v.username),
                  PasswordIssues(v.password), RePasswordIssues(v.rePassword), PhoneIssues(v.phone),
                  AddressIssues(v.address), MatchIssues(v), path);
    if path != "name" { MessagesOnPath(NameIssues(v.name), "name", path); }
    if path != "email" { MessagesOnPath(EmailIssues(v.email, emailFormat), "email", path); }
    if path != "username" { MessagesOnPath(UsernameIssues(v.username), "username", path); }
    if path != "password" { MessagesOnPath(PasswordIssues(v.password), "password", path); }
    if path != "rePassword" { MessagesOnPath(RePasswordIssues(v.rePassword), "rePassword", path); }
    if path != "phone" { MessagesOnPath(PhoneIssues(v.phone), "phone", path); }
    if path != "address" { MessagesOnPath(AddressIssues(v.address), "address", path); }
    if path != "rePassword" { MessagesOnPath(MatchIssues(v), "rePassword", path); }
  }

  /** Each of the profile fields is reported on exactly when its own rules fail. */
  lemma RegisterFieldRules(v: RegisterValues, emailFormat: bool)
    ensures var issues := RegisterIssues(v, emailFormat);
            && (Messages(issues, "name") == [] <==> |v.name| >= 2)
            && (Messages(issues, "username") == [] <==> |v.username| >= 6)
            && (Messages(issues, "phone") == [] <==> PhonePattern(v.phone))
            && (Messages(issues, "address") == [] <==> v.address != "")
  {
    RegisterFieldMessages(v, emailFormat, "name");
    RegisterFieldMessages(v, emailFormat, "username");
    RegisterFieldMessages(v, emailFormat, "phone");
    RegisterFieldMessages(v, emailFormat, "address");
    MessagesOnPath(NameIssues(v.name), "name", "");
    MessagesOnPath(UsernameIssues(v.username), "username", "");
    MessagesOnPath(PhoneIssues(v.phone), "phone", "");
    MessagesOnPath(AddressIssues(v.address), "address", "");
  }

  /** The password is reported on exactly when it is short or lacks the
      pattern; the confirmation exactly when it is empty or differs, and a
      difference is reported however the other checks went. */
  lemma RegisterPasswordRules(v: RegisterValues, emailFormat: bool)
    ensures var issues := RegisterIssues(v, emailFormat);
            && (Messages(issues, "password") == [] <==> |v.password| >= 6 && PasswordPattern(v.password))
            && (Messages(issues, "rePassword") == [] <==> v.rePassword != "" && v.password == v.rePassword)
            && (v.password != v.rePassword ==> "Passwords do not match" in Messages(issues, "rePassword"))
  {
    RegisterFieldMessages(v, emailFormat, "password");
    RegisterFieldMessages(v, emailFormat, "rePassword");
    MessagesOnPath(PasswordIssues(v.password), "password", "");
    MessagesOnPath(RePasswordIssues(v.rePassword), "rePassword", "");
    MessagesOnPath(MatchIssues(v), "rePassword", "");
  }

  /** What the form shows first: the "required" message for an empty field,
      the length message for a short name, and the mismatch for a filled-in
      confirmation that differs. */
  lemma RegisterShown(v: RegisterValues, emailFormat: bool)
    ensures var issues := RegisterIssues(v, emailFormat);
            && (v.name == "" ==> Shown(issues, "name") == "Name is required")
            && (|v.name| == 1 ==> Shown(issues, "name") == "Name must be at least 2 characters")
            && (v.password == "" ==> Shown(issues, "password") == "Password is required")
            && (v.rePassword != "" && v.password != v.rePassword ==>
                  Shown(issues, "rePassword") == "Passwords do not match")
  {
    RegisterFieldMessages(v, emailFormat, "name");
    RegisterFieldMessages(v, emailFormat, "password");
    RegisterFieldMessages(v, emailFormat, "rePassword");
    MessagesOnPath(NameIssues(v.name), "name", "");
    MessagesOnPath(PasswordIssues(v.password), "password", "");
    MessagesOnPath(RePasswordIssues(v.rePassword), "rePassword", "");
    MessagesOnPath(MatchIssues(v), "rePassword", "");
  }

  // After the form is sent.

  /** The route the page sends a signed-up user to. */
  const LoginRoute := "/auth/login"

  /** The sign-up call either answers with a body whose `message` may be
      missing, or throws. */
  datatype SignupReply = Reply(message: Option<string>) | Threw

  datatype Outcome = Navigate(path: string) | Alert(text: string)

  /** `onSubmit` after the sign-up call. */
  function AfterSignup(reply: SignupReply): (o: Outcome)
    ensures o.Navigate? <==> reply == Reply(Some("success"))
    ensures o.Navigate? ==> o.path == LoginRoute
    ensures reply.Threw? ==> o == Alert("Registration failed")
    ensures reply.Reply? && reply.message != Some("success") ==>
              o == Alert(if reply.message.Some? && reply.message.value != "" then reply.message.value
                         else "Something went wrong")
  {
    match reply
    case Threw => Alert("Registration failed")
    case Reply(message) =>
      if message == Some("success") then Navigate(LoginRoute)
      else Alert(if message.Some? && message.value != "" then message.value else "Something went wrong")
  }
}
