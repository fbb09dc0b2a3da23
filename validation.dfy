/** The zod request schemas, as the list of issue messages each one
    reports: a body is accepted iff the list is empty. zod runs every
    check of a string field, so an empty address reports both of its
    messages. `isEmail` stands for zod's `.email()` check. */
module Validation {
  import opened Wrappers
  import opened Strings

  /** The bodies of register and login, and of verify; a field is `None`
      when it is absent. */
  datatype Credentials = Credentials(email: Option<string>, password: Option<string>)
  datatype VerifyBody = VerifyBody(token: Option<string>)

  /** The issue zod reports for an absent field. */
  const Required := "Required"

  /** `z.string().min(n, { message })`, which measures the string's
      `length` in UTF-16 code units. */
  function MinIssues(v: Option<string>, n: nat, message: string): (r: seq<string>)
    ensures r == [] <==> v.Some? && Utf16Length(v.value) >= n
    ensures |r| <= 1
  {
    if v.None? then [Required]
    else if Utf16Length(v.value) < n then [message]
    else []
  }

  /** `z.string().email(...).min(1, ...)`. */
  function EmailIssues(v: Option<string>, isEmail: string -> bool): (r: seq<string>)
    ensures r == [] <==> v.Some? && isEmail(v.value) && |v.value| >= 1
    ensures v.Some? && v.value == "" ==> "Email is required" in r
  {
    if v.None? then [Required]
    else
      (if isEmail(v.value) then [] else ["Invalid email address"]) +
      (if |v.value| < 1 then ["Email is required"] else [])
  }

  function RegisterIssues(body: Credentials, isEmail: string -> bool): (r: seq<string>)
    ensures r == [] <==>
            body.email.Some? && isEmail(body.email.value) && |body.email.value| >= 1 &&
            body.password.Some? && Utf16Length(body.password.value) >= 6
  {
    EmailIssues(body.email, isEmail) + MinIssues(body.password, 6, "Password must be at least 6 characters")
  }

  function LoginIssues(body: Credentials, isEmail: string -> bool): (r: seq<string>)
    ensures r == [] <==>
            body.email.Some? && isEmail(body.email.value) && |body.email.value| >= 1 &&
            body.password.Some? && |body.password.value| >= 1
  {
    EmailIssues(body.email, isEmail) + MinIssues(body.password, 1, "Password is required")
  }

  function VerifyIssues(body: VerifyBody): (r: seq<string>)
    ensures r == [] <==> body.token.Some? && body.token.value != []
  {
    MinIssues(body.token, 1, "Verification token is required")
  }

  /** Every body `registerSchema` accepts, `loginSchema` accepts too, and
      `loginSchema` accepts passwords `registerSchema` refuses. */
  lemma RegisterStricterThanLogin(body: Credentials, isEmail: string -> bool)
    ensures RegisterIssues(body, isEmail) == [] ==> LoginIssues(body, isEmail) == []
    ensures body.email.Some? && isEmail(body.email.value) && body.email.value != [] &&
            body.password == Some("abc") ==>
            LoginIssues(body, isEmail) == [] &&
            RegisterIssues(body, isEmail) == ["Password must be at least 6 characters"]
  {
  }
}
