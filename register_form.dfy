/** The sign-up form: three text fields, one error message per field, a
    check that runs on the sanitized values, and a submit that calls the
    register endpoint only when the check records no error. */
module RegisterForm {
  import opened Wrappers
  import opened Strings
  import opened Sanitize
  import Validation

  datatype Field = EmailField | PasswordField | ConfirmField

  const EmailRequired := "Email is required"
  const PasswordRequired := "Password is required"
  const PasswordTooShort := "Password must be at least 6 characters"
  const Mismatch := "Passwords do not match"

  /** The errors `validateForm` records for already sanitized values. */
  function RegisterErrors(email: string, password: string, confirm: string): (m: map<Field, string>)
    ensures EmailField in m <==> email == ""
    ensures PasswordField in m <==> Utf16Length(password) < 6
    ensures ConfirmField in m <==> password != confirm
    ensures EmailField in m ==> m[EmailField] == EmailRequired
    ensures PasswordField in m ==> m[PasswordField] == if password == "" then PasswordRequired else PasswordTooShort
    ensures ConfirmField in m ==> m[ConfirmField] == Mismatch
  {
    var m0: map<Field, string> := map[];
    var m1 := if email == "" then m0[EmailField := EmailRequired] else m0;
    var m2 := if password == "" then m1[PasswordField := PasswordRequired] else m1;
    var m3 := if password != "" && Utf16Length(password) < 6 then m2[PasswordField := PasswordTooShort] else m2;
    if password != confirm then m3[ConfirmField := Mismatch] else m3
  }

  /** The form is accepted exactly when the email is non-empty, the
      password's `length` is at least six UTF-16 code units and the
      confirmation equals it. */
  lemma AcceptedExactly(email: string, password: string, confirm: string)
    ensures RegisterErrors(email, password, confirm) == map[] <==>
            email != "" && Utf16Length(password) >= 6 && password == confirm
  {
    var m := RegisterErrors(email, password, confirm);
    if email == "" {
      assert EmailField in m;
    } else if Utf16Length(password) < 6 {
      assert PasswordField in m;
    } else if password != confirm {
      assert ConfirmField in m;
    } else {
      assert m.Keys == {};
    }
  }

  /** A password of three characters above U+FFFF has `length` 6, so the
      form takes it. */
  lemma AstralPasswordAccepted(email: string)
    requires email != ""
    ensures RegisterErrors(email, "\U{1F600}\U{1F600}\U{1F600}", "\U{1F600}\U{1F600}\U{1F600}") == map[]
  {
    Utf16LengthAstral();
    AcceptedExactly(email, "\U{1F600}\U{1F600}\U{1F600}", "\U{1F600}\U{1F600}\U{1F600}");
  }

  /** Whatever passes the form's check, with an address the server takes
      for one, passes the server's `registerSchema` too; the server
      refuses no password the form lets through. */
  lemma AcceptedPassesSchema(email: string, password: string, confirm: string, isEmail: string -> bool)
    requires RegisterErrors(email, password, confirm) == map[]
    requires isEmail(email)
    ensures Validation.RegisterIssues(Validation.Credentials(Some(email), Some(password)), isEmail) == []
  {
    AcceptedExactly(email, password, confirm);
  }

  /** The checks of `validateForm`, one `if` after another, on the
      sanitized values. */
  method CollectErrors(email: string, password: string, confirm: string) returns (newErrors: map<Field, string>)
    ensures newErrors == RegisterErrors(email, password, confirm)
  {
    newErrors := map[];
    if email == "" {
      newErrors := newErrors[EmailField := EmailRequired];
    }
    if password == "" {
      newErrors := newErrors[PasswordField := PasswordRequired];
    }
    if password != "" && Utf16Length(password) < 6 {
      newErrors := newErrors[PasswordField := PasswordTooShort];
    }
    if password != confirm {
      newErrors := newErrors[ConfirmField := Mismatch];
    }
  }

  /** What happens after a submit: nothing is sent; or the success toast
      and the move to the sign-in page; or an error toast. */
  datatype SubmitResult =
    | Refused
    | Registered
    | RegisterFailed(message: string)

  const RegisterFallback := "Registration failed"

  class Form {
    var email: string
    var password: string
    var confirmPassword: string
    var errors: map<Field, string>

    constructor ()
      ensures email == "" && password == "" && confirmPassword == "" && errors == map[]
    {
      email, password, confirmPassword, errors := "", "", "", map[];
    }

    /** `handleChange`: stores the value, and blanks that field's error
        when it shows one; the other fields and errors stay. */
    method Change(field: Field, value: string)
      modifies this
      ensures field == EmailField ==> email == value && password == old(password) && confirmPassword == old(confirmPassword)
      ensures field == PasswordField ==> password == value && email == old(email) && confirmPassword == old(confirmPassword)
      ensures field == ConfirmField ==> confirmPassword == value && email == old(email) && password == old(password)
      ensures errors.Keys == old(errors).Keys
      ensures field in errors ==> errors[field] == ""
      ensures forall f :: f in errors && f != field ==> errors[f] == old(errors)[f]
    {
      match field {
        case EmailField => email := value;
        case PasswordField => password := value;
        case ConfirmField => confirmPassword := value;
      }
      if field in errors && errors[field] != "" {
        errors := errors[field := ""];
      }
    }

    /** `validateForm`: the errors of the sanitized values replace the old
        ones, and the form is valid when there are none. */
    method ValidateForm() returns (ok: bool)
      modifies this
      ensures errors == RegisterErrors(SanitizeInput(email), SanitizeInput(password), SanitizeInput(confirmPassword))
      ensures ok <==> errors == map[]
      ensures email == old(email) && password == old(password) && confirmPassword == old(confirmPassword)
    {
      var newErrors := CollectErrors(SanitizeInput(email), SanitizeInput(password), SanitizeInput(confirmPassword));
      errors := newErrors;
      ok := |newErrors| == 0;
      assert ok <==> newErrors.Keys == {};
    }

    /** `handleSubmit`. `response` is what the register call gives back:
        `None` when it succeeds, otherwise the `error` field of the failed
        response, if it has one. The call is made, with the sanitized email
        and password, only when the check passes. */
    method Submit(response: Option<Option<string>>) returns (request: Option<(string, string)>, result: SubmitResult)
      modifies this
      ensures errors == RegisterErrors(SanitizeInput(email), SanitizeInput(password), SanitizeInput(confirmPassword))
      ensures email == old(email) && password == old(password) && confirmPassword == old(confirmPassword)
      ensures request.Some? <==> errors == map[]
      ensures request.Some? ==> request.value == (SanitizeInput(email), SanitizeInput(password))
      ensures request.None? ==> result == Refused
      ensures request.Some? && response.None? ==> result == Registered
      ensures request.Some? && response.Some? ==>
              result == RegisterFailed(if response.value.Some? && response.value.value != "" then response.value.value else RegisterFallback)
    {
      var ok := ValidateForm();
      if !ok {
        return None, Refused;
      }
      request := Some((SanitizeInput(email), SanitizeInput(password)));
      if response.None? {
        result := Registered;
      } else if response.value.Some? && response.value.value != "" {
        result := RegisterFailed(response.value.value);
      } else {
        result := RegisterFailed(RegisterFallback);
      }
    }
  }
}
