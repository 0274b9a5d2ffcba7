/** AuthViewModel.swift: the synchronous state of the login and sign-up
    forms. The object is a class whose methods assign its fields; what the
    authentication service later delivers through its publishers is not
    part of this model. */
module ViewModels {
  import opened Wrappers
  import opened Text
  import Validators

  // ---------------------------------------------------------------------
  // The checks the view model applies, as functions of their inputs.

  /** The local part class `[A-Z0-9a-z.%+-]`: no underscore. */
  predicate IsLoginLocalChar(c: char)
  {
    IsAsciiAlnum(c) || c == '.' || c == '%' || c == '+' || c == '-'
  }

  /** The domain class `[A-Z0-9a-z]`: one label, no dot and no hyphen. */
  predicate IsLoginDomainChar(c: char)
  {
    IsAsciiAlnum(c)
  }

  /** A full match of `[A-Z0-9a-z.%+-]+@[A-Z0-9a-z]+\.[A-Za-z]{2,64}`. */
  predicate LoginEmailPattern(s: string)
    ensures LoginEmailPattern(s) ==> Validators.IsValidEmail(s)
  {
    LoginEmailIsValidEmail(s);
    Validators.MatchesEmailPattern(s, IsLoginLocalChar, IsLoginDomainChar)
  }

  /** The password rule `password.count >= 8`. */
  predicate LoginPasswordRule(password: string)
  {
    |password| >= 8
  }

  /** The name rule `name.count >= 2`, with no trimming. */
  predicate LoginNameRule(name: string)
  {
    |name| >= 2
  }

  const InvalidEmailMessage: string := "Please enter a valid email address"
  const ShortPasswordMessage: string := "Password must be at least 8 characters"
  const ShortNameMessage: string := "Name must be at least 2 character"
  const FillFieldsMessage: string := "Please fill in all the fields correctly"

  /** The message a `validateX` method leaves in its error field. */
  function ErrorFor(ok: bool, message: string): (e: Option<string>)
    ensures e.None? <==> ok
    ensures !ok ==> e == Some(message)
  {
    if ok then None else Some(message)
  }

  // ---------------------------------------------------------------------
  // How these checks relate to the ones in Validators.swift.

  /** Every address the view model accepts is accepted by
      `Validators.isValidEmail`. */
  lemma LoginEmailIsValidEmail(s: string)
    ensures Validators.MatchesEmailPattern(s, IsLoginLocalChar, IsLoginDomainChar) ==> Validators.IsValidEmail(s)
  {
    if !Validators.MatchesEmailPattern(s, IsLoginLocalChar, IsLoginDomainChar) {
      return;
    }
    var at, dot :| 0 <= at < |s| && 0 <= dot < |s| && Validators.EmailSplitAt(s, at, dot, IsLoginLocalChar, IsLoginDomainChar);
    assert Validators.EmailSplitAt(s, at, dot, Validators.IsEmailLocalChar, Validators.IsEmailDomainChar);
  }

  /** No address accepted by the view model contains an underscore. */
  lemma LoginEmailHasNoUnderscore(s: string)
    ensures LoginEmailPattern(s) ==> forall k :: 0 <= k < |s| ==> s[k] != '_'
  {
    if !LoginEmailPattern(s) {
      return;
    }
    var at, dot :| 0 <= at < |s| && 0 <= dot < |s| && Validators.EmailSplitAt(s, at, dot, IsLoginLocalChar, IsLoginDomainChar);
    forall k | 0 <= k < |s|
      ensures s[k] != '_'
    {
      if k < at {
        assert IsLoginLocalChar(s[k]);
      } else if at < k < dot {
        assert IsLoginDomainChar(s[k]);
      } else if dot < k {
        assert IsAsciiLetter(s[k]);
      }
    }
  }

  /** After an `@`, an address accepted by the view model has a single dot:
      its domain is one label and a top-level domain. */
  lemma LoginEmailHasOneDomainDot(s: string)
    ensures LoginEmailPattern(s) ==>
      forall i, j1, j2 :: 0 <= i < j1 < j2 < |s| && s[i] == '@' && s[j1] == '.' ==> s[j2] != '.'
  {
    if !LoginEmailPattern(s) {
      return;
    }
    var at, dot :| 0 <= at < |s| && 0 <= dot < |s| && Validators.EmailSplitAt(s, at, dot, IsLoginLocalChar, IsLoginDomainChar);
    forall i, j1, j2 | 0 <= i < j1 < j2 < |s| && s[i] == '@' && s[j1] == '.'
      ensures s[j2] != '.'
    {
      assert i == at;
    }
  }

  /** The converse of `LoginEmailIsValidEmail` fails: an underscore in the
      local part passes `Validators.isValidEmail` but not the view model. */
  lemma UnderscoreAddressRejected()
    ensures Validators.IsValidEmail("a_b@x.io") && !LoginEmailPattern("a_b@x.io")
  {
    var s := "a_b@x.io";
    assert Validators.IsValidEmail(s) by {
      assert Validators.EmailSplitAt(s, 3, 5, Validators.IsEmailLocalChar, Validators.IsEmailDomainChar);
    }
    assert !LoginEmailPattern(s) by {
      LoginEmailHasNoUnderscore(s);
      assert s[1] == '_';
    }
  }

  /** The mock user's address is one that the view model's login form
      rejects although `Validators.isValidEmail` accepts it. */
  lemma MockAddressRejected()
    ensures Validators.IsValidEmail("a_kassiman@kbtu.kz") && !LoginEmailPattern("a_kassiman@kbtu.kz")
  {
    var s := "a_kassiman@kbtu.kz";
    assert Validators.IsValidEmail(s) by {
      assert Validators.EmailSplitAt(s, 10, 15, Validators.IsEmailLocalChar, Validators.IsEmailDomainChar);
    }
    assert !LoginEmailPattern(s) by {
      LoginEmailHasNoUnderscore(s);
      assert s[1] == '_';
    }
  }

  /** A dotted domain passes `Validators.isValidEmail` but not the view
      model. */
  lemma SubdomainAddressRejected()
    ensures Validators.IsValidEmail("a@mail.kbtu.kz") && !LoginEmailPattern("a@mail.kbtu.kz")
  {
    var s := "a@mail.kbtu.kz";
    assert Validators.IsValidEmail(s) by {
      assert Validators.EmailSplitAt(s, 1, 11, Validators.IsEmailLocalChar, Validators.IsEmailDomainChar);
    }
    assert !LoginEmailPattern(s) by {
      LoginEmailHasOneDomainDot(s);
      assert s[1] == '@' && s[6] == '.' && s[11] == '.';
    }
  }

  /** The view model's password rule and message are those of
      `Validators.isValidPassword`. */
  lemma PasswordRulesAgree(password: string)
    ensures LoginPasswordRule(password) <==> Validators.IsValidPassword(password).isValid
    ensures !LoginPasswordRule(password) ==>
      Validators.IsValidPassword(password).message == Some(ShortPasswordMessage)
  {
    Validators.PasswordMessageText();
  }

  /** Every name `Validators.isValidName` accepts passes the view model's
      rule, but not the converse: the view model does not trim, so two
      spaces pass it. */
  lemma NameRulesDiffer(name: string)
    ensures Validators.IsValidName(name).isValid ==> LoginNameRule(name)
    ensures LoginNameRule("  ") && !Validators.IsValidName("  ").isValid
  {
    var blank := "  ";
    assert forall k :: 0 <= k < |blank| ==> IsWhitespaceOrNewline(blank[k]);
  }

  /** The guard of `login`. */
  predicate LoginGuard(email: string, password: string)
    ensures LoginGuard(email, password) ==>
      Validators.IsValidEmail(email) && Validators.IsValidPassword(password).isValid
  {
    LoginEmailPattern(email) && LoginPasswordRule(password)
  }

  /** The guard of `signUp`. */
  predicate SignUpGuard(name: string, email: string, password: string, confirmation: string)
    ensures SignUpGuard(name, email, password, confirmation) ==>
      LoginGuard(email, password) && Validators.IsValidPassword(confirmation).isValid
  {
    LoginNameRule(name) && LoginEmailPattern(email) && LoginPasswordRule(password) && password == confirmation
  }

  // ---------------------------------------------------------------------
  // The view model.

  class AuthViewModel {
    // login
    var email: string
    var password: string
    // sign up
    var signUpName: string
    var signUpEmail: string
    var signUpPassword: string
    var signUpConfirmPassword: string
    var studentID: string
    // state
    var isLoading: bool
    var errorMessage: Option<string>
    var isAuthenticated: bool
    var showPassword: bool
    // validation
    var emailError: Option<string>
    var passwordError: Option<string>
    var nameError: Option<string>

    /** `init`: every field at its declared default, except that
        `isAuthenticated` takes the service's current value through the
        binding `setupBildings` installs. */
    constructor(serviceAuthenticated: bool)
      ensures email == "" && password == ""
      ensures signUpName == "" && signUpEmail == "" && signUpPassword == ""
      ensures signUpConfirmPassword == "" && studentID == ""
      ensures !isLoading && errorMessage == None && !showPassword
      ensures isAuthenticated == serviceAuthenticated
      ensures emailError == None && passwordError == None && nameError == None
    {
      email, password := "", "";
      signUpName, signUpEmail, signUpPassword := "", "", "";
      signUpConfirmPassword, studentID := "", "";
      isLoading, errorMessage, showPassword := false, None, false;
      isAuthenticated := serviceAuthenticated;
      emailError, passwordError, nameError := None, None, None;
    }

    /** `validateEmail`: the result of the login pattern, with `emailError`
        set to the message exactly when it fails; no other field changes. */
    method ValidateEmail(candidate: string) returns (ok: bool)
      modifies this`emailError
      ensures ok <==> LoginEmailPattern(candidate)
      ensures emailError == ErrorFor(ok, InvalidEmailMessage)
    {
      ok := LoginEmailPattern(candidate);
      if !ok {
        emailError := Some(InvalidEmailMessage);
      } else {
        emailError := None;
      }
    }

    /** `validatePassword`: at least eight characters, with `passwordError`
        set to the message exactly when not; no other field changes. */
    method ValidatePassword(candidate: string) returns (ok: bool)
      modifies this`passwordError
      ensures ok <==> LoginPasswordRule(candidate)
      ensures passwordError == ErrorFor(ok, ShortPasswordMessage)
    {
      ok := |candidate| >= 8;
      if !ok {
        passwordError := Some(ShortPasswordMessage);
      } else {
        passwordError := None;
      }
    }

    /** `validateName`: at least two characters, untrimmed, with
        `nameError` set to the message exactly when not; no other field
        changes. */
    method ValidateName(candidate: string) returns (ok: bool)
      modifies this`nameError
      ensures ok <==> LoginNameRule(candidate)
      ensures nameError == ErrorFor(ok, ShortNameMessage)
    {
      ok := |candidate| >= 2;
      if !ok {
        nameError := Some(ShortNameMessage);
      } else {
        nameError := None;
      }
    }

    /** `passwordsMatch`. */
    function PasswordsMatch(): (ok: bool)
      reads this
      ensures ok <==> signUpPassword == signUpConfirmPassword
    {
      signUpPassword == signUpConfirmPassword
    }

    /** The synchronous part of `login`: the email is checked first and the
        password only when the email passes, so an invalid email leaves
        `passwordError` as it was. A failed guard sets the generic message
        and leaves `isLoading` alone; a passed one starts loading and clears
        the message. */
    method Login()
      modifies this`emailError, this`passwordError, this`errorMessage, this`isLoading
      ensures emailError == ErrorFor(LoginEmailPattern(email), InvalidEmailMessage)
      ensures passwordError ==
        if LoginEmailPattern(email) then ErrorFor(LoginPasswordRule(password), ShortPasswordMessage)
        else old(passwordError)
      ensures LoginGuard(email, password) ==> isLoading && errorMessage == None
      ensures !LoginGuard(email, password) ==>
        isLoading == old(isLoading) && errorMessage == Some(FillFieldsMessage)
    {
      var emailOk := ValidateEmail(email);
      var passed := emailOk;
      if passed {
        passed := ValidatePassword(password);
      }
      if !passed {
        errorMessage := Some(FillFieldsMessage);
        return;
      }
      isLoading := true;
      errorMessage := None;
    }

    /** The synchronous part of `signUp`: name, email, password and the
        confirmation are checked in that order, each only when the ones
        before it passed. */
    method SignUp()
      modifies this`nameError, this`emailError, this`passwordError, this`errorMessage, this`isLoading
      ensures nameError == ErrorFor(LoginNameRule(signUpName), ShortNameMessage)
      ensures emailError ==
        if LoginNameRule(signUpName) then ErrorFor(LoginEmailPattern(signUpEmail), InvalidEmailMessage)
        else old(emailError)
      ensures passwordError ==
        if LoginNameRule(signUpName) && LoginEmailPattern(signUpEmail)
        then ErrorFor(LoginPasswordRule(signUpPassword), ShortPasswordMessage)
        else old(passwordError)
      ensures SignUpGuard(signUpName, signUpEmail, signUpPassword, signUpConfirmPassword) ==>
        isLoading && errorMessage == None
      ensures !SignUpGuard(signUpName, signUpEmail, signUpPassword, signUpConfirmPassword) ==>
        isLoading == old(isLoading) && errorMessage == Some(FillFieldsMessage)
    {
      var passed := ValidateName(signUpName);
      if passed {
        passed := ValidateEmail(signUpEmail);
      }
      if passed {
        passed := ValidatePassword(signUpPassword);
      }
      if passed {
        passed := PasswordsMatch();
      }
      if !passed {
        errorMessage := Some(FillFieldsMessage);
        return;
      }
      isLoading := true;
      errorMessage := None;
    }

    /** The synchronous part of `resetPassword`: only the login email is
        checked. */
    method ResetPassword()
      modifies this`emailError, this`errorMessage, this`isLoading
      ensures emailError == ErrorFor(LoginEmailPattern(email), InvalidEmailMessage)
      ensures LoginEmailPattern(email) ==> isLoading && errorMessage == None
      ensures !LoginEmailPattern(email) ==>
        isLoading == old(isLoading) && errorMessage == Some(FillFieldsMessage)
    {
      var passed := ValidateEmail(email);
      if !passed {
        errorMessage := Some(FillFieldsMessage);
        return;
      }
      isLoading := true;
      errorMessage := None;
    }

    /** `clearFields`: the seven text fields become empty and the four
        messages are cleared; loading, authentication and visibility keep
        their values. */
    method ClearFields()
      modifies this`email, this`password, this`signUpName, this`signUpEmail,
        this`signUpPassword, this`signUpConfirmPassword, this`studentID,
        this`errorMessage, this`emailError, this`passwordError, this`nameError
      ensures email == "" && password == ""
      ensures signUpName == "" && signUpEmail == "" && signUpPassword == ""
      ensures signUpConfirmPassword == "" && studentID == ""
      ensures errorMessage == None && emailError == None && passwordError == None && nameError == None
    {
      email, password := "", "";
      signUpName, signUpEmail, signUpPassword := "", "", "";
      signUpConfirmPassword, studentID := "", "";
      errorMessage, emailError, passwordError, nameError := None, None, None, None;
    }

    /** `togglePasswordVisibility`. */
    method TogglePasswordVisibility()
      modifies this`showPassword
      ensures showPassword == !old(showPassword)
    {
      showPassword := !showPassword;
    }
  }

  /** Toggling the visibility twice restores it and changes nothing else. */
  method ToggleTwice(vm: AuthViewModel)
    modifies vm`showPassword
    ensures vm.showPassword == old(vm.showPassword)
  {
    vm.TogglePasswordVisibility();
    vm.TogglePasswordVisibility();
  }

  /** Clearing the fields keeps loading, authentication and visibility, and
      clears every message a failed login can leave behind. */
  method LoginThenClear(vm: AuthViewModel)
    modifies vm
    ensures vm.isAuthenticated == old(vm.isAuthenticated) && vm.showPassword == old(vm.showPassword)
    ensures vm.errorMessage == None && vm.emailError == None && vm.passwordError == None
    ensures vm.email == "" && vm.password == ""
  {
    vm.Login();
    vm.ClearFields();
  }
}
