/**
 * The sign-up form of `app/Signup/page.tsx`: the five checks of
 * `validateForm`, run in order with the first failure reported, and the state
 * changes of `handleSubmit` around the call that creates the account.
 */
module Signup {
  import opened Wrappers
  import opened Text

  const NameRequired := "Full name is required"
  const EmailRequired := "Email is required"
  const PasswordRequired := "Password is required"
  const PasswordsDiffer := "Passwords do not match"
  const PasswordTooShort := "Password must be at least 6 characters"
  const AccountCreated := "Account created successfully! Please check your email to verify your account."
  const FailurePrefix := "Failed to create an account: "

  /**
   * The message `validateForm` sets, or `None` when every check passes. Name
   * and email are checked after trimming; the password is not trimmed, and
   * its length counts UTF-16 code units.
   */
  function ValidationError(name: string, email: string, password: string, confirmPassword: string): Option<string>
  {
    if Trim(name) == "" then Some(NameRequired)
    else if Trim(email) == "" then Some(EmailRequired)
    else if password == "" then Some(PasswordRequired)
    else if password != confirmPassword then Some(PasswordsDiffer)
    else if Utf16Length(password) < 6 then Some(PasswordTooShort)
    else None
  }

  /**
   * The form is valid exactly when all five rules hold, and otherwise the
   * first rule broken, in the order name, email, password, match, length,
   * decides the message.
   */
  lemma ValidationRules(name: string, email: string, password: string, confirmPassword: string)
    ensures ValidationError(name, email, password, confirmPassword).None? <==>
            !IsBlank(name) && !IsBlank(email) && password != "" &&
            password == confirmPassword && 6 <= Utf16Length(password)
    ensures IsBlank(name) ==> ValidationError(name, email, password, confirmPassword) == Some(NameRequired)
    ensures !IsBlank(name) && IsBlank(email) ==>
              ValidationError(name, email, password, confirmPassword) == Some(EmailRequired)
    ensures !IsBlank(name) && !IsBlank(email) && password == "" ==>
              ValidationError(name, email, password, confirmPassword) == Some(PasswordRequired)
    ensures !IsBlank(name) && !IsBlank(email) && password != "" && password != confirmPassword ==>
              ValidationError(name, email, password, confirmPassword) == Some(PasswordsDiffer)
    ensures (!IsBlank(name) && !IsBlank(email) && password != "" && password == confirmPassword &&
             Utf16Length(password) < 6) ==> ValidationError(name, email, password, confirmPassword) == Some(PasswordTooShort)
  {
  }

  /** A mismatch is reported ahead of the length rule, even for a too-short password. */
  lemma MismatchBeforeLength(name: string, email: string, password: string, confirmPassword: string)
    requires !IsBlank(name) && !IsBlank(email)
    requires password != "" && password != confirmPassword && Utf16Length(password) < 6
    ensures ValidationError(name, email, password, confirmPassword) == Some(PasswordsDiffer)
  {
    ValidationRules(name, email, password, confirmPassword);
  }

  /** Six spaces typed twice pass: the password is never trimmed. */
  lemma SixSpacesPass(name: string, email: string)
    requires !IsBlank(name) && !IsBlank(email)
    ensures ValidationError(name, email, "      ", "      ").None?
  {
    ValidationRules(name, email, "      ", "      ");
    var spaces := "      ";
    assert Utf16Length(spaces[5..]) == 1;
    assert Utf16Length(spaces[4..]) == 2;
    assert Utf16Length(spaces[3..]) == 3;
    assert Utf16Length(spaces[2..]) == 4;
    assert Utf16Length(spaces[1..]) == 5;
  }

  /** What `signUp` did: accepted, refused with an error object, or threw. */
  datatype SignUpOutcome =
    | Accepted
    | Refused(message: string)
    | Threw(errorMessage: Option<string>)  // `None`: what was thrown is not an `Error`

  /**
   * As wired, the page calls `signUp`, which the authentication context does
   * not provide (it provides `signup`), so the call throws a `TypeError`.
   */
  const AsWired := Threw(Some("signUp is not a function"))

  /** The page's form state. */
  class SignupForm {
    var name: string
    var email: string
    var password: string
    var confirmPassword: string
    var error: string
    var success: string
    var isLoading: bool

    constructor ()
      ensures name == "" && email == "" && password == "" && confirmPassword == ""
      ensures error == "" && success == "" && !isLoading
    {
      name, email, password, confirmPassword := "", "", "", "";
      error, success := "", "";
      isLoading := false;
    }

    /**
     * `validateForm()`: the checks in order; the first that fails writes its
     * message to `error` and the result is `false`.
     */
    method ValidateForm() returns (valid: bool)
      modifies this`error
      ensures valid <==> ValidationError(name, email, password, confirmPassword).None?
      ensures !valid ==> error == ValidationError(name, email, password, confirmPassword).value
      ensures valid ==> error == old(error)
    {
      var n, e, p, c := name, email, password, confirmPassword;
      if Trim(n) == "" {
        error := NameRequired;
        return false;
      }
      if Trim(e) == "" {
        error := EmailRequired;
        return false;
      }
      if p == "" {
        error := PasswordRequired;
        return false;
      }
      if p != c {
        error := PasswordsDiffer;
        return false;
      }
      if Utf16Length(p) < 6 {
        error := PasswordTooShort;
        return false;
      }
      return true;
    }

    /**
     * `handleSubmit`: clear both messages, validate, then act on what
     * `signUp` did. Only an accepted sign-up clears the four fields.
     */
    method HandleSubmit(outcome: SignUpOutcome)
      modifies this
      ensures var check := ValidationError(old(name), old(email), old(password), old(confirmPassword));
              if check.Some? then
                error == check.value && success == "" && isLoading == old(isLoading) &&
                name == old(name) && email == old(email) &&
                password == old(password) && confirmPassword == old(confirmPassword)
              else
                !isLoading &&
                match outcome
                case Accepted =>
                  error == "" && success == AccountCreated &&
                  name == "" && email == "" && password == "" && confirmPassword == ""
                case Refused(message) =>
                  error == message && success == "" &&
                  name == old(name) && email == old(email) &&
                  password == old(password) && confirmPassword == old(confirmPassword)
                case Threw(errorMessage) =>
                  error == FailurePrefix + errorMessage.GetOr("Unknown error") && success == "" &&
                  name == old(name) && email == old(email) &&
                  password == old(password) && confirmPassword == old(confirmPassword)
    {
      error := "";
      success := "";
      var valid := ValidateForm();
      if !valid {
        return;
      }
      isLoading := true;
      match outcome {
        case Refused(message) =>
          error := message;
        case Accepted =>
          success := AccountCreated;
          name := "";
          email := "";
          password := "";
          confirmPassword := "";
        case Threw(errorMessage) =>
          error := FailurePrefix + errorMessage.GetOr("Unknown error");
      }
      isLoading := false;
    }
  }
}
