/** The sign-in form: two text fields and their errors. A submit clears
    the errors, checks the sanitized values, and either shows the new
    errors or shows a notice with the password masked and empties the
    fields. */
module LoginForm {
  import opened Wrappers
  import opened Strings
  import opened Sanitize

  datatype Field = EmailField | PasswordField

  const EmailRequired := "Email is required"
  const PasswordRequired := "Password is required"

  /** The errors `handleSubmit` records for already sanitized values. */
  function LoginErrors(email: string, password: string): (m: map<Field, string>)
    ensures EmailField in m <==> email == ""
    ensures PasswordField in m <==> password == ""
    ensures EmailField in m ==> m[EmailField] == EmailRequired
    ensures PasswordField in m ==> m[PasswordField] == PasswordRequired
  {
    var m0: map<Field, string> := map[];
    var m1 := if email == "" then m0[EmailField := EmailRequired] else m0;
    if password == "" then m1[PasswordField := PasswordRequired] else m1
  }

  /** Both fields filled in is exactly what the check accepts. */
  lemma AcceptedExactly(email: string, password: string)
    ensures LoginErrors(email, password) == map[] <==> email != "" && password != ""
  {
    var m := LoginErrors(email, password);
    if email == "" {
      assert EmailField in m;
    } else if password == "" {
      assert PasswordField in m;
    } else {
      assert m.Keys == {};
    }
  }

  /** The notice shown on an accepted submit. */
  function Notice(email: string, password: string): string {
    "Form submitted (static)\nEmail: " + email + "\nPassword: " + Repeat('*', Utf16Length(password))
  }

  /** The notice gives away the password's `length`, in UTF-16 code
      units, and nothing else of it: two passwords of one `length` give
      the same notice, and after the email every character shown is a
      `*`. */
  lemma NoticeHidesPassword(email: string, p1: string, p2: string)
    requires Utf16Length(p1) == Utf16Length(p2)
    ensures Notice(email, p1) == Notice(email, p2)
    ensures var prefix := "Form submitted (static)\nEmail: " + email + "\nPassword: ";
            |Notice(email, p1)| == |prefix| + Utf16Length(p1) &&
            forall k :: |prefix| <= k < |Notice(email, p1)| ==> Notice(email, p1)[k] == '*'
  {
  }

  class Form {
    var email: string
    var password: string
    var errors: map<Field, string>

    constructor ()
      ensures email == "" && password == "" && errors == map[]
    {
      email, password, errors := "", "", map[];
    }

    /** `handleChange`: stores the value, and blanks that field's error
        when it shows one; the other field and its error stay. */
    method Change(field: Field, value: string)
      modifies this
      ensures field == EmailField ==> email == value && password == old(password)
      ensures field == PasswordField ==> password == value && email == old(email)
      ensures errors.Keys == old(errors).Keys
      ensures field in errors ==> errors[field] == ""
      ensures forall f :: f in errors && f != field ==> errors[f] == old(errors)[f]
    {
      if field == EmailField {
        email := value;
      } else {
        password := value;
      }
      if field in errors && errors[field] != "" {
        errors := errors[field := ""];
      }
    }

    /** `handleSubmit`. The old errors are always dropped. With errors,
        they are shown and the fields stay; without, the notice is shown
        and both fields are emptied. */
    method Submit() returns (notice: Option<string>)
      modifies this
      ensures errors == LoginErrors(SanitizeInput(old(email)), SanitizeInput(old(password)))
      ensures notice.Some? <==> errors == map[]
      ensures notice.Some? ==> notice.value == Notice(SanitizeInput(old(email)), SanitizeInput(old(password)))
      ensures notice.Some? ==> email == "" && password == ""
      ensures notice.None? ==> email == old(email) && password == old(password)
    {
      errors := map[];
      var e := SanitizeInput(email);
      var p := SanitizeInput(password);
      var newErrors: map<Field, string> := map[];
      if e == "" {
        newErrors := newErrors[EmailField := EmailRequired];
      }
      if p == "" {
        newErrors := newErrors[PasswordField := PasswordRequired];
      }
      if |newErrors| > 0 {
        errors := newErrors;
        notice := None;
      } else {
        assert newErrors == map[];
        notice := Some(Notice(e, p));
        email, password := "", "";
      }
    }
  }
}
