/** `UserValidationSchema` over an already typed draft: a name of 3 to 50 characters, an email the
    email check accepts, a role between 0 and 1 and a non-negative status. */
module UserValidation {
  import opened SchemaIssues

  const NAME_TOO_SHORT: string := "Name too short (at less 3 characters)"
  const NAME_TOO_LARGE: string := "Name too large"
  const INVALID_EMAIL: string := "Invalid email"
  const ROLE_BELOW: string := "Admin role should be 0"
  const ROLE_ABOVE: string := "User role should be 1"
  const STATUS_BELOW: string := "Inactive user should be 0"
  const NAME_MIN: nat := 3
  const NAME_MAX: nat := 50

  /** Numbers are reals: the schema accepts fractional roles and statuses. */
  datatype UserDraft = UserDraft(name: string, email: string, role: real, status: real)

  /** The email check, treated as given. */
  type EmailCheck = string -> bool

  predicate UserValid(u: UserDraft, isEmail: EmailCheck) {
    && NAME_MIN <= |u.name| <= NAME_MAX
    && isEmail(u.email)
    && 0.0 <= u.role <= 1.0
    && u.status >= 0.0
  }

  /** `.min(bound, below).max(bound, above)` on a number. */
  function RangeIssues(path: Path, x: real, min: real, max: real, below: string, above: string): (r: seq<Issue>)
    requires min <= max
    ensures r == [] <==> min <= x <= max
    ensures |r| <= 1
  {
    (if x < min then [Issue(path, below)] else []) + (if x > max then [Issue(path, above)] else [])
  }

  /** `UserValidationSchema.safeParse`: the issues of the name, the email, the role and the status,
      in that order; none exactly when the draft is valid. */
  function UserIssues(u: UserDraft, isEmail: EmailCheck): (issues: seq<Issue>)
    ensures issues == [] <==> UserValid(u, isEmail)
    ensures |issues| <= 4
  {
    LengthIssues([Key("name")], u.name, NAME_MIN, NAME_MAX, NAME_TOO_SHORT, NAME_TOO_LARGE)
      + (if isEmail(u.email) then [] else [Issue([Key("email")], INVALID_EMAIL)])
      + RangeIssues([Key("role")], u.role, 0.0, 1.0, ROLE_BELOW, ROLE_ABOVE)
      + (if u.status < 0.0 then [Issue([Key("status")], STATUS_BELOW)] else [])
  }

  /** Each failing field reports its own message, and only that one. */
  lemma UserIssueMessages(u: UserDraft, isEmail: EmailCheck)
    requires isEmail(u.email) && 0.0 <= u.role <= 1.0 && u.status >= 0.0
    ensures |u.name| < NAME_MIN ==> UserIssues(u, isEmail) == [Issue([Key("name")], NAME_TOO_SHORT)]
    ensures |u.name| > NAME_MAX ==> UserIssues(u, isEmail) == [Issue([Key("name")], NAME_TOO_LARGE)]
  {
  }
}
