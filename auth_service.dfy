/** The one-time-password sign-up and login flow
    (backend/controllers/authController.js). Users are kept per email. The
    clock (`now`, in milliseconds), the random draw behind each code and the
    outcome of sending the mail are parameters; the mail is sent after the
    user has been saved, so a failed send leaves the new code stored. */
module AuthService {
  import opened Common
  import opened JwtAuth

  /** `OTP_EXPIRY_MS`: a code lives one minute. */
  const OtpExpiryMs: int := 60 * 1000

  datatype User = User(
    id: string,
    name: string,
    email: string,
    password: string,
    isVerified: bool,
    otp: Option<string>,
    otpExpiry: Option<int>)

  /** `crypto.randomInt(100000, 999999)` excludes its upper bound. */
  predicate OtpDraw(draw: nat)
  {
    100000 <= draw < 999999
  }

  /** A code `generateOTP` can produce: six decimal digits denoting a number
      in [100000, 999998]. */
  predicate IsOtp(s: string)
  {
    |s| == 6 && AllDigits(s) && 100000 <= DigitsValue(s) <= 999998
  }

  /** `generateOTP`: the decimal text of the draw, always six digits. */
  function GenerateOtp(draw: nat): (otp: string)
    requires OtpDraw(draw)
    ensures IsOtp(otp) && DigitsValue(otp) == draw
  {
    DecimalLength(draw, 5);
    DecimalRoundTrip(draw);
    Decimal(draw)
  }

  /** `formatUser`: the public view of a user, without the password or the
      code. */
  function FormatUser(u: User): (c: Claims)
    ensures c.id == u.id && c.email == u.email && c.name == u.name
  {
    Claims(u.id, u.email, u.name)
  }

  /** The code and its expiry are set together and cleared together. */
  predicate OtpPaired(u: User)
  {
    (u.otp.Some? <==> u.otpExpiry.Some?) && (u.otp.Some? ==> IsOtp(u.otp.value))
  }

  /** A fresh code valid for one minute from `now`. */
  function Rotate(u: User, draw: nat, now: int): (v: User)
    requires OtpDraw(draw)
    ensures OtpPaired(v) && v.otpExpiry == Some(now + OtpExpiryMs)
    ensures v.otp == Some(GenerateOtp(draw))
    ensures v.(otp := u.otp, otpExpiry := u.otpExpiry) == u
  {
    u.(otp := Some(GenerateOtp(draw)), otpExpiry := Some(now + OtpExpiryMs))
  }

  // ---------------------------------------------------------------------------
  // the code check of verifyOTP

  /** The checks of `verifyOTP` as written: `user.otp !== otp` compares two
      possibly absent values, and `user.otpExpiry < new Date()` is false when
      the expiry is absent. Returns the failure message, if any. */
  function OtpCheckAsWritten(u: User, otp: Option<string>, now: int): Option<string>
  {
    if u.otp != otp then Some("Invalid OTP")
    else if u.otpExpiry.Some? && u.otpExpiry.value < now then Some("OTP expired")
    else None
  }

  /** The check as intended: only the code currently issued, and only until
      its expiry. */
  function OtpCheck(u: User, otp: Option<string>, now: int): Option<string>
  {
    if u.otp.None? || otp != u.otp then Some("Invalid OTP")
    else if u.otpExpiry.None? || u.otpExpiry.value < now then Some("OTP expired")
    else None
  }

  /** The intended check accepts exactly an issued code that has not expired;
      the expiry instant itself still counts as valid (the comparison is a
      strict `<`). A user without a code is always refused. */
  lemma OtpCheckAcceptsOnlyIssued(u: User, otp: Option<string>, now: int)
    ensures OtpCheck(u, otp, now).None? <==>
      u.otp.Some? && otp == u.otp && u.otpExpiry.Some? && now <= u.otpExpiry.value
    ensures u.otp.None? ==> OtpCheck(u, otp, now) == Some("Invalid OTP")
    ensures u.otpExpiry.Some? && now == u.otpExpiry.value && otp == u.otp && u.otp.Some? ==>
      OtpCheck(u, otp, now).None?
  {
  }

  /** A successful verification clears both fields; from then on a request
      that sends no code at all passes the written checks at any time, while
      the intended check refuses it. */
  lemma ClearedOtpPassesAsWritten(u: User, now: int)
    ensures var v := u.(isVerified := true, otp := None, otpExpiry := None);
      OtpCheckAsWritten(v, None, now).None? && OtpCheck(v, None, now) == Some("Invalid OTP")
  {
  }

  /** While a code is issued (with its expiry, as the store keeps them), the
      written check and the intended one agree; they differ only once the
      code has been cleared. */
  lemma CheckAgreesWhileIssued(u: User, otp: Option<string>, now: int)
    requires OtpPaired(u) && u.otp.Some?
    ensures OtpCheckAsWritten(u, otp, now) == OtpCheck(u, otp, now)
  {
  }

  // ---------------------------------------------------------------------------
  // the user store

  class UserStore {
    var users: map<string, User>

    /** Users are filed under their own email, and codes come in pairs. */
    predicate Valid()
      reads this
    {
      forall e :: e in users ==> users[e].email == e && OtpPaired(users[e])
    }

    constructor()
      ensures users == map[] && Valid()
    {
      users := map[];
    }

    /** `signUp`: an unknown email gets a new unverified user (201); an
      unverified one has its name and password replaced and a fresh code
      (200); a verified one is refused with 409 and nothing changes. A failed
      mail gives 500 after the user has been saved. */
    method SignUp(name: string, email: string, password: string, draw: nat, now: int,
                  mailSent: bool, newId: string)
      returns (status: nat, message: string)
      requires Valid() && OtpDraw(draw)
      modifies this
      ensures Valid()
      ensures email in old(users) && old(users)[email].isVerified ==>
        status == 409 && message == "User already exists. Please sign in." && users == old(users)
      ensures email in old(users) && !old(users)[email].isVerified ==>
        users == old(users)[email := Rotate(old(users)[email].(name := name, password := password), draw, now)]
        && (mailSent ==> status == 200 && message == "Details updated. Please verify OTP sent to email.")
        && (!mailSent ==> status == 500 && message == "Error registering user")
      ensures email !in old(users) ==>
        users == old(users)[email := User(newId, name, email, password, false,
                                          Some(GenerateOtp(draw)), Some(now + OtpExpiryMs))]
        && (mailSent ==> status == 201 && message == "User registered. Please verify OTP sent to email.")
        && (!mailSent ==> status == 500 && message == "Error registering user")
    {
      if email in users {
        var existing := users[email];
        if !existing.isVerified {
          existing := existing.(name := name, password := password);
          var otp := GenerateOtp(draw);
          existing := existing.(otp := Some(otp), otpExpiry := Some(now + OtpExpiryMs));
          users := users[email := existing];
          if !mailSent {
            return 500, "Error registering user";
          }
          return 200, "Details updated. Please verify OTP sent to email.";
        }
        return 409, "User already exists. Please sign in.";
      }
      var otp := GenerateOtp(draw);
      var user := User(newId, name, email, password, false, Some(otp), Some(now + OtpExpiryMs));
      users := users[email := user];
      if !mailSent {
        return 500, "Error registering user";
      }
      status, message := 201, "User registered. Please verify OTP sent to email.";
    }

    /** `verifyOTP`: 400 for an unknown email, then for a wrong code, then for
      an expired one; on success the user is verified, both code fields are
      cleared, and the session cookie carries `formatUser` of the user. The
      code check is the handler's own, `OtpCheckAsWritten`: while a code is
      issued it answers as the intended `OtpCheck`, and once a success has
      cleared the code, a request without a code verifies again. */
    method VerifyOtp(email: string, otp: Option<string>, now: int)
      returns (status: nat, message: string, session: Option<Claims>)
      requires Valid()
      modifies this
      ensures Valid()
      ensures email !in old(users) ==>
        status == 400 && message == "User not found" && session.None? && users == old(users)
      ensures email in old(users) && OtpCheckAsWritten(old(users)[email], otp, now).Some? ==>
        status == 400 && message == OtpCheckAsWritten(old(users)[email], otp, now).value
        && session.None? && users == old(users)
      ensures email in old(users) && OtpCheckAsWritten(old(users)[email], otp, now).None? ==>
        var u := old(users)[email].(isVerified := true, otp := None, otpExpiry := None);
        users == old(users)[email := u] && status == 200 && message == "Login successful"
        && session == Some(FormatUser(u))
      ensures email in old(users) && old(users)[email].otp.Some? ==>
        (status == 200 <==> OtpCheck(old(users)[email], otp, now).None?)
      ensures email in old(users) && old(users)[email].otp.None? && otp.None? ==>
        status == 200 && session.Some?
    {
      if email !in users {
        return 400, "User not found", None;
      }
      var user := users[email];
      var problem := OtpCheckAsWritten(user, otp, now);
      if user.otp.Some? {
        CheckAgreesWhileIssued(user, otp, now);
      }
      if problem.Some? {
        return 400, problem.value, None;
      }
      if !user.isVerified {
        user := user.(isVerified := true);
      }
      user := user.(otp := None, otpExpiry := None);
      users := users[email := user];
      status, message, session := 200, "Login successful", Some(FormatUser(user));
    }

    /** `resendOTP`: 400 for an unknown email, otherwise a fresh code whether
      or not the user is verified. */
    method ResendOtp(email: string, draw: nat, now: int, mailSent: bool)
      returns (status: nat, message: string)
      requires Valid() && OtpDraw(draw)
      modifies this
      ensures Valid()
      ensures email !in old(users) ==> status == 400 && message == "User not found" && users == old(users)
      ensures email in old(users) ==>
        users == old(users)[email := Rotate(old(users)[email], draw, now)]
        && (mailSent ==> status == 200 && message == "OTP resent successfully. Please check your email.")
        && (!mailSent ==> status == 500 && message == "Error resending OTP")
    {
      if email !in users {
        return 400, "User not found";
      }
      var user := users[email];
      var otp := GenerateOtp(draw);
      user := user.(otp := Some(otp), otpExpiry := Some(now + OtpExpiryMs));
      users := users[email := user];
      if !mailSent {
        return 500, "Error resending OTP";
      }
      status, message := 200, "OTP resent successfully. Please check your email.";
    }

    /** `login`: 400 for an unknown email, then for a wrong password;
      otherwise a fresh code, and the reply always asks for it: no session is
      ever issued here. Password hashing is left out, so `comparePassword` is
      equality with the stored password. */
    method Login(email: string, password: string, draw: nat, now: int, mailSent: bool)
      returns (status: nat, message: string, requiresOtp: bool)
      requires Valid() && OtpDraw(draw)
      modifies this
      ensures Valid()
      ensures email !in old(users) ==>
        status == 400 && message == "User not found. Please Sign Up." && !requiresOtp && users == old(users)
      ensures email in old(users) && old(users)[email].password != password ==>
        status == 400 && message == "Incorrect password" && !requiresOtp && users == old(users)
      ensures email in old(users) && old(users)[email].password == password ==>
        users == old(users)[email := Rotate(old(users)[email], draw, now)]
        && (mailSent ==> status == 200 && requiresOtp
                         && message == "OTP sent to your email. Please verify to login.")
        && (!mailSent ==> status == 500 && !requiresOtp && message == "Error logging in")
    {
      if email !in users {
        return 400, "User not found. Please Sign Up.", false;
      }
      var user := users[email];
      if user.password != password {
        return 400, "Incorrect password", false;
      }
      var otp := GenerateOtp(draw);
      user := user.(otp := Some(otp), otpExpiry := Some(now + OtpExpiryMs));
      users := users[email := user];
      if !mailSent {
        return 500, "Error logging in", false;
      }
      status, message, requiresOtp := 200, "OTP sent to your email. Please verify to login.", true;
    }
  }

  /** `logout`: always 200, and the session cookie is cleared. */
  function Logout(): (r: (nat, string, bool))
    ensures r.0 == 200 && r.2
  {
    (200, "Logout successful", true)
  }

  /** `getCurrentUser`: always 200, with the user the optional middleware
      attached, or `null`. */
  function CurrentUser(reqUser: Option<Claims>): (r: (nat, Option<Claims>))
    ensures r.0 == 200 && r.1 == reqUser
  {
    (200, reqUser)
  }
}
