/** The sign-up page's handlers (frontend/src/pages/SignUp.jsx): the form
    checks, the switch to the code view after a successful sign-up, the code
    submission and the return to the form with the details restored. The
    server's answers are parameters. */
module SignUpPage {
  import opened Common

  /** The details kept for the code view; all absent until a sign-up
      succeeds. */
  datatype TempUser = TempUser(name: Option<string>, email: Option<string>, password: Option<string>)

  /** The requests the page sends. */
  datatype Call = SignUpCall(name: string, email: string, password: string)
                | VerifyCall(address: Option<string>, otp: string)

  /** The form checks, first failure wins. */
  function SignUpProblem(fullName: string, email: string, password: string, confirm: string): (p: Option<string>)
    ensures p.None? <==> !Blank(fullName) && !Blank(email) && password != "" && password == confirm
  {
    if Blank(fullName) then Some("Please enter your full name")
    else if Blank(email) then Some("Please enter a valid email")
    else if password == "" then Some("Please enter a password")
    else if password != confirm then Some("Passwords do not match")
    else None
  }

  /** The checks run in the order of the form: a blank name is reported even
      when every other field is wrong too, and a mismatch only once the rest
      is filled in. */
  lemma CheckOrder(fullName: string, email: string, password: string, confirm: string)
    ensures Blank(fullName) ==> SignUpProblem(fullName, email, password, confirm) == Some("Please enter your full name")
    ensures !Blank(fullName) && Blank(email) ==>
      SignUpProblem(fullName, email, password, confirm) == Some("Please enter a valid email")
    ensures SignUpProblem(fullName, email, password, confirm) == Some("Passwords do not match") ==>
      !Blank(fullName) && !Blank(email) && password != ""
  {
  }

  /** Details that passed the checks still pass them once restored from the
      kept copy: the trimmed name and email, and the password in both
      password fields. */
  lemma RestoredDetailsPass(fullName: string, email: string, password: string, confirm: string)
    requires SignUpProblem(fullName, email, password, confirm).None?
    ensures SignUpProblem(Trim(fullName), Trim(email), password, password).None?
    ensures Trim(Trim(email)) == Trim(email)
  {
    TrimIdempotent(fullName);
    TrimIdempotent(email);
  }

  class Page {
    var fullName: string
    var email: string
    var password: string
    var confirmPassword: string
    var showOtpView: bool
    var otp: string
    var tempUser: TempUser
    var loggedIn: bool

    /** The code view is shown only with the details of a successful
        sign-up at hand. */
    predicate Valid()
      reads this
    {
      showOtpView ==> tempUser.email.Some?
    }

    constructor()
      ensures fullName == "" && email == "" && password == "" && confirmPassword == ""
      ensures !showOtpView && otp == "" && tempUser == TempUser(None, None, None) && !loggedIn
      ensures Valid()
    {
      fullName, email, password, confirmPassword := "", "", "", "";
      showOtpView, otp := false, "";
      tempUser := TempUser(None, None, None);
      loggedIn := false;
    }

    /** `handleSubmit`: a failed check sends nothing; otherwise the untrimmed
        name, the trimmed email and the password are sent, and on success
        the trimmed details are kept and the code view opens. */
    method Submit(succeeded: bool) returns (problem: Option<string>, call: Option<Call>)
      requires Valid()
      modifies this
      ensures Valid()
      ensures fullName == old(fullName) && email == old(email) && password == old(password)
      ensures confirmPassword == old(confirmPassword) && otp == old(otp) && loggedIn == old(loggedIn)
      ensures problem == SignUpProblem(old(fullName), old(email), old(password), old(confirmPassword))
      ensures problem.Some? ==> call.None? && showOtpView == old(showOtpView) && tempUser == old(tempUser)
      ensures problem.None? ==> call == Some(SignUpCall(old(fullName), Trim(old(email)), old(password)))
      ensures problem.None? && succeeded ==>
        showOtpView && tempUser == TempUser(Some(Trim(old(fullName))), Some(Trim(old(email))), Some(old(password)))
      ensures problem.None? && !succeeded ==> showOtpView == old(showOtpView) && tempUser == old(tempUser)
    {
      problem := SignUpProblem(fullName, email, password, confirmPassword);
      if problem.Some? {
        return problem, None;
      }
      var trimmedEmail := Trim(email);
      call := Some(SignUpCall(fullName, trimmedEmail, password));
      if succeeded {
        tempUser := TempUser(Some(Trim(fullName)), Some(trimmedEmail), Some(password));
        showOtpView := true;
      }
    }

    /** `handleOtpSubmit`: a blank code sends nothing; otherwise the kept
        email and the code as typed are sent, and a verified code logs the
        user in and leads to "/dashboard". */
    method SubmitOtp(verified: bool) returns (problem: Option<string>, call: Option<Call>, navigateTo: Option<string>)
      requires Valid() && showOtpView
      modifies this
      ensures Valid()
      ensures fullName == old(fullName) && email == old(email) && password == old(password)
      ensures confirmPassword == old(confirmPassword) && otp == old(otp)
      ensures showOtpView == old(showOtpView) && tempUser == old(tempUser)
      ensures Blank(old(otp)) ==>
        problem == Some("Please enter the OTP") && call.None? && navigateTo.None? && loggedIn == old(loggedIn)
      ensures !Blank(old(otp)) ==> problem.None? && call == Some(VerifyCall(old(tempUser).email, old(otp)))
      ensures !Blank(old(otp)) && verified ==> loggedIn && navigateTo == Some("/dashboard")
      ensures !Blank(old(otp)) && !verified ==> loggedIn == old(loggedIn) && navigateTo.None?
    {
      if Blank(otp) {
        return Some("Please enter the OTP"), None, None;
      }
      problem := None;
      call := Some(VerifyCall(tempUser.email, otp));
      navigateTo := None;
      if verified {
        loggedIn := true;
        navigateTo := Some("/dashboard");
      }
    }

    /** `handleChangeDetails`: back to the form with an empty code; each kept
        detail that is non-empty is put back, the password into both
        password fields. */
    method ChangeDetails()
      requires Valid()
      modifies this
      ensures Valid()
      ensures !showOtpView && otp == ""
      ensures tempUser == old(tempUser) && loggedIn == old(loggedIn)
      ensures fullName == if Truthy(tempUser.name) then tempUser.name.value else old(fullName)
      ensures email == if Truthy(tempUser.email) then tempUser.email.value else old(email)
      ensures Truthy(tempUser.password) ==>
        password == tempUser.password.value && confirmPassword == tempUser.password.value
      ensures !Truthy(tempUser.password) ==> password == old(password) && confirmPassword == old(confirmPassword)
    {
      showOtpView := false;
      otp := "";
      if Truthy(tempUser.name) {
        fullName := tempUser.name.value;
      }
      if Truthy(tempUser.email) {
        email := tempUser.email.value;
      }
      if Truthy(tempUser.password) {
        password := tempUser.password.value;
        confirmPassword := tempUser.password.value;
      }
    }
  }
}
