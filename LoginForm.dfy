/** The sign-in form of Frontend/ordering_system/src/app/authentication/login/page.tsx:
    the schema's field checks and the choice of the page to return to. */
module LoginForm {
  import opened Wrappers
  import opened FormText

  datatype LoginValues = LoginValues(username: string, password: string)

  function UsernameIssues(s: string): seq<Issue> {
    Check(|s| >= 1, "username", "Username is required")
  }

  function PasswordIssues(s: string): seq<Issue> {
    Check(|s| >= 1, "password", "Password is required")
    + Check(|s| >= 6, "password", "Password must be at least 6 characters")
    + Check(PasswordPattern(s), "password", "Password must have at least one uppercase letter and one number")
  }

  /** All issues the schema records, in schema order. */
  function LoginIssues(v: LoginValues): seq<Issue> {
    UsernameIssues(v.username) + PasswordIssues(v.password)
  }

  /** The form is submitted exactly when the username is filled in and the
      password has six characters or more, an uppercase letter and a digit
      on one line. */
  lemma LoginAccepted(v: LoginValues)
    ensures LoginIssues(v) == [] <==>
              v.username != "" && |v.password| >= 6 && PasswordPattern(v.password)
  {
  }

  /** Each field is reported on exactly when its own rule fails, and a
      password shorter than six characters is reported as such, whether or
      not it also lacks the pattern. */
  lemma LoginFieldRules(v: LoginValues)
    ensures var issues := LoginIssues(v);
            && (Messages(issues, "username") == [] <==> v.username != "")
            && (Messages(issues, "password") == [] <==> |v.password| >= 6 && PasswordPattern(v.password))
            && (v.username == "" ==> Shown(issues, "username") == "Username is required")
            && (0 < |v.password| < 6 ==>
                  Shown(issues, "password") == "Password must be at least 6 characters")
            && (|v.password| >= 6 && !PasswordPattern(v.password) ==>
                  Messages(issues, "password") == ["Password must have at least one uppercase letter and one number"])
  {
    var u, p := UsernameIssues(v.username), PasswordIssues(v.password);
    MessagesConcat(u, p, "username");
    MessagesConcat(u, p, "password");
    var p1 := Check(|v.password| >= 1, "password", "Password is required");
    var p2 := Check(|v.password| >= 6, "password", "Password must be at least 6 characters");
    var p3 := Check(PasswordPattern(v.password), "password", "Password must have at least one uppercase letter and one number");
    MessagesConcat(p1, p2, "username");
    MessagesConcat(p1 + p2, p3, "username");
    MessagesConcat(p1, p2, "password");
    MessagesConcat(p1 + p2, p3, "password");
  }

  /** A password without a digit never passes, however long. */
  lemma NoDigitRejected(v: LoginValues)
    requires !HasDigit(v.password)
    ensures LoginIssues(v) != []
  {
    if PasswordPattern(v.password) {
      PatternNeedsUpperAndDigit(v.password);
    }
  }

  /** The one path the stored page is compared with: the sign-in route
      next-auth is configured with. No page is served there. */
  const ExcludedPath := "/auth/login"

  /** The route the sign-in page itself is served at. */
  const SignInRoute := "/authentication/login"

  /** The page to go to after signing in, from the `lastPage` entry of
      session storage: the stored path when there is one that is neither
      empty nor `/auth/login`, the home page `/` otherwise. */
  function LastPage(stored: Option<string>): (page: string)
    ensures stored.Some? && stored.value != "" && stored.value != ExcludedPath ==> page == stored.value
    ensures !(stored.Some? && stored.value != "" && stored.value != ExcludedPath) ==> page == "/"
  {
    if stored.Some? && stored.value != "" && stored.value != ExcludedPath then stored.value else "/"
  }

  /** The chosen page is the stored one or the home page, never empty and
      never `/auth/login`. */
  lemma LastPageIsUsable(stored: Option<string>)
    ensures LastPage(stored) == "/" || (stored.Some? && LastPage(stored) == stored.value)
    ensures LastPage(stored) != "" && LastPage(stored) != ExcludedPath
  {
  }

  /** The comparison names a route other than the sign-in page's own: a
      stored `/authentication/login` is gone back to after signing in. */
  lemma SignInPageCanBeChosen()
    ensures LastPage(Some(SignInRoute)) == SignInRoute
  {
  }
}
