/**
 * The sign-in / sign-up dialog: the field checks it makes before it calls the
 * account store, the per-field error table, and the change handler that
 * clears a field's error as the user types.
 */
module AuthModal {
  import opened Wrappers
  import opened JsString
  import opened Seqs
  import opened UserStore

  datatype Field = Name | Email | Password | ConfirmPassword

  datatype AuthForm = AuthForm(name: string, email: string, password: string, confirmPassword: string)

  const EmptyForm := AuthForm("", "", "", "")

  function FieldValue(form: AuthForm, f: Field): string {
    match f
    case Name => form.name
    case Email => form.email
    case Password => form.password
    case ConfirmPassword => form.confirmPassword
  }

  /** The form passes every check of the given mode. */
  predicate FormAccepted(form: AuthForm, isLogin: bool) {
    && form.email != "" && MatchesEmailPattern(form.email)
    && form.password != ""
    && (isLogin || (Utf16Length(form.password) >= 6 && form.name != ""
                    && form.confirmPassword != "" && form.password == form.confirmPassword))
  }

  /** `validateForm()`: the error recorded for each failing field, and whether none was recorded. */
  method ValidateForm(form: AuthForm, isLogin: bool) returns (errors: map<Field, string>, valid: bool)
    ensures Email in errors <==> form.email == "" || !MatchesEmailPattern(form.email)
    ensures Email in errors ==>
      errors[Email] == if form.email == "" then "Email is required" else "Please enter a valid email"
    ensures Password in errors <==> form.password == "" || (!isLogin && Utf16Length(form.password) < 6)
    ensures Password in errors ==>
      errors[Password] == if form.password == "" then "Password is required" else "Password must be at least 6 characters"
    ensures Name in errors <==> !isLogin && form.name == ""
    ensures Name in errors ==> errors[Name] == "Name is required"
    ensures ConfirmPassword in errors <==>
      !isLogin && (form.confirmPassword == "" || form.password != form.confirmPassword)
    ensures ConfirmPassword in errors ==>
      errors[ConfirmPassword] == if form.confirmPassword == "" then "Please confirm your password" else "Passwords do not match"
    ensures valid <==> errors == map[]
    ensures valid <==> FormAccepted(form, isLogin)
  {
    errors := map[];
    if form.email == "" {
      errors := errors[Email := "Email is required"];
    } else if !MatchesEmailPattern(form.email) {
      errors := errors[Email := "Please enter a valid email"];
    }
    if form.password == "" {
      errors := errors[Password := "Password is required"];
    } else if !isLogin && Utf16Length(form.password) < 6 {
      errors := errors[Password := "Password must be at least 6 characters"];
    }
    if !isLogin {
      if form.name == "" {
        errors := errors[Name := "Name is required"];
      }
      if form.confirmPassword == "" {
        errors := errors[ConfirmPassword := "Please confirm your password"];
      } else if form.password != form.confirmPassword {
        errors := errors[ConfirmPassword := "Passwords do not match"];
      }
    }
    valid := errors == map[];
    if !valid {
      assert Email in errors || Password in errors || Name in errors || ConfirmPassword in errors by {
        var f :| f in errors;
        assert f.Email? || f.Password? || f.Name? || f.ConfirmPassword?;
      }
    }
  }

  /** A sign-up form that passes its checks is also a valid sign-in form. */
  lemma SignUpAcceptanceIsStricter(form: AuthForm)
    requires FormAccepted(form, false)
    ensures FormAccepted(form, true)
  {
  }

  /**
   * A sign-up form that passes its checks also passes the account store's
   * empty-field, length and email checks: the only refusal left is a
   * registered email.
   */
  lemma AcceptedSignUpReachesDuplicateCheck(form: AuthForm, directory: seq<Account>)
    requires FormAccepted(form, false)
    ensures RegisterError(directory, form.name, form.email, form.password) ==
      if HasKey(directory, EmailOf, form.email) then Some("Email already registered") else None
  {
  }

  /** A sign-in form that passes its checks is never refused for an empty field. */
  lemma AcceptedSignInHasBothFields(form: AuthForm, directory: seq<Account>)
    requires FormAccepted(form, true)
    ensures LoginError(directory, form.email, form.password) != Some("Please fill in all fields")
  {
  }

  /**
   * `handleChange(e)`: the named field takes the typed value, and its error,
   * when it had a truthy one, becomes the empty string.
   */
  function HandleChange(form: AuthForm, errors: map<Field, string>, f: Field, value: string): (r: (AuthForm, map<Field, string>))
    ensures FieldValue(r.0, f) == value
    ensures forall g | g != f :: FieldValue(r.0, g) == FieldValue(form, g)
    ensures forall g | g != f :: (g in r.1 <==> g in errors) && (g in errors ==> r.1[g] == errors[g])
    ensures f in r.1 <==> f in errors
    ensures f in r.1 ==> r.1[f] == ""
  {
    var next := match f
      case Name => form.(name := value)
      case Email => form.(email := value)
      case Password => form.(password := value)
      case ConfirmPassword => form.(confirmPassword := value);
    (next, if f in errors && errors[f] != "" then errors[f := ""] else errors)
  }

  /**
   * `handleSubmit(e)`: nothing reaches the store unless the form passes;
   * then sign-in or sign-up, and on success the form and its errors are reset.
   */
  method HandleSubmit(account: UserStore.Store, form: AuthForm, isLogin: bool, newId: string, now: string)
    returns (success: bool, nextForm: AuthForm, errors: map<Field, string>)
    requires account.Valid()
    modifies account`directory, account`user, account`isAuthenticated, account`isLoading, account`error
    ensures account.Valid()
    ensures errors == map[] <==> FormAccepted(form, isLogin)
    ensures !FormAccepted(form, isLogin) ==> !success && unchanged(account)
    ensures FormAccepted(form, isLogin) && isLogin ==>
      var failure := LoginError(old(account.directory), form.email, form.password);
      && success == failure.None?
      && account.directory == old(account.directory)
      && (success ==> (account.error == None && account.user ==
            Some(LoginSession(old(account.directory)[FirstIndex(old(account.directory), EmailOf, form.email).value], now))))
      && (!success ==> account.user == old(account.user) && account.error == failure)
    ensures FormAccepted(form, isLogin) && !isLogin ==>
      var failure := RegisterError(old(account.directory), form.name, form.email, form.password);
      var created := NewAccount(form.name, form.email, form.password, newId, now);
      && success == failure.None?
      && (success ==> (account.error == None && account.directory == old(account.directory) + [created]
            && account.user == Some(WithoutPassword(created))))
      && (!success ==> (account.directory == old(account.directory) && account.user == old(account.user)
            && account.error == failure))
    ensures nextForm == if success then EmptyForm else form
  {
    var valid;
    errors, valid := ValidateForm(form, isLogin);
    nextForm, success := form, false;
    if !valid {
      return;
    }
    if isLogin {
      success := account.Login(form.email, form.password, now);
    } else {
      success := account.Register(form.name, form.email, form.password, newId, now);
    }
    if success {
      nextForm, errors := EmptyForm, map[];
    }
  }
}
