/** The login page's handlers (frontend/src/pages/Login.jsx): the form
    checks, the branch on `requiresOTP`, the code submission and the return
    to the email form. The server's answers are parameters. */
module LoginPage {
  import opened Common

  /** What the login request gave back: a reply saying whether a code is
      needed, or a thrown error. */
  datatype LoginReply = Answered(requiresOtp: bool) | Threw

  /** The requests the page sends. */
  datatype Call = LoginCall(email: string, password: string) | VerifyCall(email: string, otp: string)

  /** The form checks, first failure wins. */
  function LoginProblem(email: string, password: string): (p: Option<string>)
    ensures p.None? <==> !Blank(email) && password != ""
    ensures Blank(email) ==> p == Some("Please enter Email !")
  {
    if Blank(email) then Some("Please enter Email !")
    else if password == "" then Some("Please enter Password !")
    else None
  }

  class Page {
    var email: string
    var password: string
    var hasError: bool
    var showOtpView: bool
    var otp: string
    var loggedIn: bool

    constructor()
      ensures email == "" && password == "" && !hasError && !showOtpView && otp == "" && !loggedIn
    {
      email, password := "", "";
      hasError, showOtpView := false, false;
      otp := "";
      loggedIn := false;
    }

    /** `handleSubmit`: a failed check flags the error and sends nothing;
        otherwise the trimmed email and the password are sent. A reply that
        needs no code logs the user in; one that needs a code opens the code
        view; a thrown error flags the error. */
    method Submit(reply: LoginReply) returns (problem: Option<string>, call: Option<Call>, navigateTo: Option<string>)
      modifies this
      ensures email == old(email) && password == old(password) && otp == old(otp)
      ensures problem == LoginProblem(old(email), old(password))
      ensures problem.Some? ==>
        hasError && call.None? && navigateTo.None? && showOtpView == old(showOtpView) && loggedIn == old(loggedIn)
      ensures problem.None? ==> call == Some(LoginCall(Trim(old(email)), old(password)))
      ensures problem.None? && reply == Answered(false) ==>
        loggedIn && !hasError && navigateTo == Some("/Dashboard") && showOtpView == old(showOtpView)
      ensures problem.None? && reply == Answered(true) ==>
        showOtpView && !hasError && navigateTo.None? && loggedIn == old(loggedIn)
      ensures problem.None? && reply == Threw ==>
        hasError && navigateTo.None? && showOtpView == old(showOtpView) && loggedIn == old(loggedIn)
    {
      problem := LoginProblem(email, password);
      if problem.Some? {
        hasError := true;
        return problem, None, None;
      }
      hasError := false;
      call := Some(LoginCall(Trim(email), password));
      navigateTo := None;
      match reply {
        case Answered(requiresOtp) =>
          if !requiresOtp {
            loggedIn := true;
            navigateTo := Some("/Dashboard");
          } else {
            showOtpView := true;
          }
        case Threw =>
          hasError := true;
      }
    }

    /** `handleOtpSubmit`: a blank code sends nothing; otherwise the trimmed
        email and the code as typed are sent, and a verified code logs the
        user in. */
    method SubmitOtp(verified: bool) returns (problem: Option<string>, call: Option<Call>, navigateTo: Option<string>)
      requires showOtpView
      modifies this
      ensures email == old(email) && password == old(password) && otp == old(otp)
      ensures showOtpView == old(showOtpView) && hasError == old(hasError)
      ensures Blank(old(otp)) ==>
        problem == Some("Please enter the OTP") && call.None? && navigateTo.None? && loggedIn == old(loggedIn)
      ensures !Blank(old(otp)) ==> problem.None? && call == Some(VerifyCall(Trim(old(email)), old(otp)))
      ensures !Blank(old(otp)) && verified ==> loggedIn && navigateTo == Some("/Dashboard")
      ensures !Blank(old(otp)) && !verified ==> loggedIn == old(loggedIn) && navigateTo.None?
    {
      if Blank(otp) {
        return Some("Please enter the OTP"), None, None;
      }
      problem := None;
      call := Some(VerifyCall(Trim(email), otp));
      navigateTo := None;
      if verified {
        loggedIn := true;
        navigateTo := Some("/Dashboard");
      }
    }

    /** `handleChangeEmail`: back to the email form with an empty code. */
    method ChangeEmail()
      modifies this
      ensures !showOtpView && otp == ""
      ensures email == old(email) && password == old(password) && hasError == old(hasError)
      ensures loggedIn == old(loggedIn)
    {
      showOtpView := false;
      otp := "";
    }
  }
}
