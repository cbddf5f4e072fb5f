/** The sign-in / sign-up page. The submit handler runs a chain of checks
    on the form, then a simulated sign-in; the link under the form switches
    between the two modes. Emptiness is JavaScript truthiness of the raw
    field, so a field of spaces passes. */
module Auth {
  import opened Wrappers
  import opened Toasts

  datatype FormData = FormData(email: string, password: string, username: string)

  const FillAllFields := "Please fill in all fields"
  const EnterUsername := "Please enter a username"

  /** The check chain of the submit handler: the error it reports, if any.
      The empty-fields check comes first; the username is asked for only
      when signing up. */
  function Validate(isLogin: bool, form: FormData): (err: Option<string>)
    ensures err == Some(FillAllFields) <==> form.email == "" || form.password == ""
    ensures err == Some(EnterUsername) <==>
      form.email != "" && form.password != "" && !isLogin && form.username == ""
    ensures err.None? <==>
      form.email != "" && form.password != "" && (isLogin || form.username != "")
  {
    if form.email == "" || form.password == "" then Some(FillAllFields)
    else if !isLogin && form.username == "" then Some(EnterUsername)
    else None
  }

  /** Signing in never looks at the username. */
  lemma LoginIgnoresUsername(form: FormData, username: string)
    ensures Validate(true, form.(username := username)) == Validate(true, form)
  {
  }

  /** Signing up accepts only forms that signing in accepts too. */
  lemma SignUpIsStricter(form: FormData)
    ensures Validate(false, form).None? ==> Validate(true, form).None?
  {
  }

  /** The success notice of each mode. */
  function WelcomeText(isLogin: bool): (t: string)
    ensures t == "Welcome back!" <==> isLogin
  {
    if isLogin then "Welcome back!" else "Account created successfully!"
  }

  class AuthPage {
    var isLogin: bool
    var showPassword: bool
    var isLoading: bool
    var form: FormData

    constructor ()
      ensures isLogin && !showPassword && !isLoading && form == FormData("", "", "")
    {
      isLogin := true;
      showPassword := false;
      isLoading := false;
      form := FormData("", "", "");
    }

    method SetEmail(email: string)
      modifies this`form
      ensures form == old(form).(email := email)
    {
      form := form.(email := email);
    }

    method SetPassword(password: string)
      modifies this`form
      ensures form == old(form).(password := password)
    {
      form := form.(password := password);
    }

    method SetUsername(username: string)
      modifies this`form
      ensures form == old(form).(username := username)
    {
      form := form.(username := username);
    }

    /** The submit handler up to its simulated delay: a failing check
        reports its error and loading never starts. The handler's closure
        has captured the mode of the render it belongs to, which it returns
        for the rest of the handler. */
    method BeginSubmit() returns (err: Option<Toast>, mode: bool)
      modifies this`isLoading
      ensures mode == isLogin
      ensures Validate(isLogin, form).Some? ==>
        err == Some(Failure(Validate(isLogin, form).value)) && isLoading == old(isLoading)
      ensures Validate(isLogin, form).None? ==> err.None? && isLoading
    {
      mode := isLogin;
      var check := Validate(isLogin, form);
      if check.Some? {
        return Some(Failure(check.value)), mode;
      }
      isLoading := true;
      err := None;
    }

    /** The submit handler after the delay: loading ends, the welcome of
        the captured mode is shown (a mode toggled during the delay does not
        change it) and the app goes home. */
    method FinishSubmit(mode: bool) returns (notice: Toast, navigateTo: string)
      modifies this`isLoading
      ensures !isLoading
      ensures notice == Success(WelcomeText(mode)) && navigateTo == "/"
    {
      isLoading := false;
      notice := Success(WelcomeText(mode));
      navigateTo := "/";
    }

    /** The submit handler as one step. */
    method HandleSubmit() returns (notice: Toast, navigateTo: Option<string>)
      modifies this`isLoading
      ensures Validate(isLogin, form).Some? ==>
        notice == Failure(Validate(isLogin, form).value) && navigateTo.None? &&
        isLoading == old(isLoading)
      ensures Validate(isLogin, form).None? ==>
        notice == Success(WelcomeText(isLogin)) && navigateTo == Some("/") && !isLoading
    {
      var err, mode := BeginSubmit();
      if err.Some? {
        return err.value, None;
      }
      var path;
      notice, path := FinishSubmit(mode);
      navigateTo := Some(path);
    }

    /** The "Sign up" / "Sign in" link; the typed form is outside its frame. */
    method ToggleMode()
      modifies this`isLogin
      ensures isLogin == !old(isLogin)
    {
      isLogin := !isLogin;
    }

    method TogglePasswordVisibility()
      modifies this`showPassword
      ensures showPassword == !old(showPassword)
    {
      showPassword := !showPassword;
    }
  }
}
