/** The login decision of `FaceLogin`: credential check, face capture and
    comparison, e-mail one-time password, and its verification. The camera,
    the face-recognition library, the mail transport and the OTP dialog are
    replaced by the outcomes they report, gathered in an `Observation`. */
module Login {
  import opened Wrappers
  import opened Ledger
  import opened Decimal

  /** A value `random.randint(100000, 999999)` can return. */
  type OtpCode = x: int | 100000 <= x <= 999999 witness 100000

  /** What loading the stored reference image and comparing it with the
      captured face reports: a match, no match, or an exception (missing file,
      no face in the stored image, ...). */
  datatype FaceReference = Matches | Differs | LoadFailed

  /** Everything the external collaborators report during one login attempt. */
  datatype Observation = Observation(
    frameCaptured: bool,        // the camera returned a frame
    faceFound: bool,            // at least one face encoding in that frame
    reference: FaceReference,   // result of the stored-reference comparison
    code: OtpCode,              // the OTP that would be drawn
    delivered: bool,            // the SMTP exchange raised no exception
    otpInput: string,           // the text typed into the OTP dialog
    otpOk: bool)                // the OTP dialog was confirmed

  datatype AbortReason = CaptureFailed | NoFaceDetected | OtpNotSent

  /** How access was granted. */
  datatype Route = FaceMatch | OtpVerified

  /** How one login attempt ends. Only `Granted` opens the dashboard. */
  datatype Outcome =
    | InvalidCredentials
    | Aborted(reason: AbortReason)
    | Registered
    | Granted(user: Account, route: Route)
    | Denied

  /** The row holds both the entered account number and the entered PIN. */
  predicate HoldsCredentials(a: Account, acc: int, pin: int)
  {
    a.number == acc && a.pin == pin
  }

  /** Position of the first row holding both the account number and the PIN:
      the filter on both columns followed by `iloc[0]`. */
  function FindCredentials(t: Table, acc: int, pin: int): (r: Option<nat>)
    ensures r.None? <==> forall j :: 0 <= j < |t| ==> !HoldsCredentials(t[j], acc, pin)
    ensures r.Some? ==> IsFirstWhere(t, (a: Account) => HoldsCredentials(a, acc, pin), r.value)
  {
    FirstWhere(t, (a: Account) => HoldsCredentials(a, acc, pin))
  }

  /** The string the OTP is stored and e-mailed as: `str(code)`. */
  function IssuedOtp(code: OtpCode): (s: string)
    ensures |s| == 6 && AllDigits(s) && Value(s) == code
  {
    assert Pow10(5) == 100000 && Pow10(6) == 1000000 by {
      assert Pow10(1) == 10 && Pow10(2) == 100 && Pow10(3) == 1000 && Pow10(4) == 10000;
    }
    DigitsLength(code, 6);
    ValueOfDigits(code);
    Digits(code)
  }

  /** `verify_otp`: access only when the dialog is confirmed and the typed text
      is the issued OTP string. */
  function VerifyOtp(user: Account, issued: string, input: string, ok: bool): (r: Outcome)
    ensures r == Granted(user, OtpVerified) || r == Denied
    ensures r.Granted? <==> ok && input == issued
  {
    if ok && input == issued then Granted(user, OtpVerified) else Denied
  }

  /** `send_email_otp`: a failed delivery aborts the attempt; otherwise the
      user is asked for the code. */
  function SendEmailOtp(user: Account, o: Observation): (r: Outcome)
    ensures !o.delivered ==> r == Aborted(OtpNotSent)
    ensures o.delivered && !(o.otpOk && o.otpInput == IssuedOtp(o.code)) ==> r == Denied
    ensures r.Granted? <==> o.delivered && o.otpOk && o.otpInput == IssuedOtp(o.code)
    ensures r.Granted? ==> r.user == user && r.route == OtpVerified
  {
    var issued := IssuedOtp(o.code);
    if !o.delivered then Aborted(OtpNotSent) else VerifyOtp(user, issued, o.otpInput, o.otpOk)
  }

  /** `capture_face`: a missing frame or face aborts; a stored reference that
      cannot be loaded or encoded is replaced by the captured frame
      (enrolment) and grants nothing; a match grants; a mismatch falls back
      to the e-mailed OTP. */
  function CaptureFace(user: Account, o: Observation): (r: Outcome)
    ensures !o.frameCaptured ==> r == Aborted(CaptureFailed)
    ensures o.frameCaptured && !o.faceFound ==> r == Aborted(NoFaceDetected)
    ensures r == Registered <==> o.frameCaptured && o.faceFound && o.reference == LoadFailed
    ensures o.frameCaptured && o.faceFound && o.reference == Differs && !o.delivered ==>
      r == Aborted(OtpNotSent)
    ensures (o.frameCaptured && o.faceFound && o.reference == Differs && o.delivered &&
             !(o.otpOk && o.otpInput == IssuedOtp(o.code))) ==> r == Denied
    ensures r.Granted? ==> r.user == user && o.frameCaptured && o.faceFound
    ensures r.Granted? && r.route == FaceMatch <==> o.frameCaptured && o.faceFound && o.reference == Matches
    ensures r.Granted? && r.route == OtpVerified <==>
      o.frameCaptured && o.faceFound && o.reference == Differs &&
      o.delivered && o.otpOk && o.otpInput == IssuedOtp(o.code)
  {
    if !o.frameCaptured then Aborted(CaptureFailed)
    else if !o.faceFound then Aborted(NoFaceDetected)
    else match o.reference
      case LoadFailed => Registered
      case Matches => Granted(user, FaceMatch)
      case Differs => SendEmailOtp(user, o)
  }

  /** `validate_login`: the whole attempt for an entered account number and
      PIN against the table loaded at start-up. */
  function ValidateLogin(t: Table, acc: int, pin: int, o: Observation): (r: Outcome)
    ensures r == InvalidCredentials <==> forall j :: 0 <= j < |t| ==> !HoldsCredentials(t[j], acc, pin)
    ensures r.Granted? ==> r.user in t && r.user.number == acc && r.user.pin == pin
    ensures r == Registered <==>
      (exists j :: 0 <= j < |t| && HoldsCredentials(t[j], acc, pin)) &&
      o.frameCaptured && o.faceFound && o.reference == LoadFailed
    ensures r.Aborted? <==>
      (exists j :: 0 <= j < |t| && HoldsCredentials(t[j], acc, pin)) &&
      (!o.frameCaptured || !o.faceFound || (o.reference == Differs && !o.delivered))
    ensures r.Granted? <==>
      (exists j :: 0 <= j < |t| && HoldsCredentials(t[j], acc, pin)) &&
      o.frameCaptured && o.faceFound &&
      (o.reference == Matches ||
       (o.reference == Differs && o.delivered && o.otpOk && o.otpInput == IssuedOtp(o.code)))
  {
    match FindCredentials(t, acc, pin)
    case None => InvalidCredentials
    case Some(i) => CaptureFace(t[i], o)
  }

  /** The dashboard is opened for the first row matching the entered
      credentials, never for another row. */
  lemma GrantedUserIsFirstMatch(t: Table, acc: int, pin: int, o: Observation)
    requires ValidateLogin(t, acc, pin, o).Granted?
    ensures exists i :: 0 <= i < |t| && t[i] == ValidateLogin(t, acc, pin, o).user &&
                        HoldsCredentials(t[i], acc, pin) &&
                        (forall j :: 0 <= j < i ==> !HoldsCredentials(t[j], acc, pin))
  {
  }

  /** The OTP check accepts exactly the six-digit decimal spelling of the
      code: any confirmed six-digit input denoting the code, and nothing else. */
  lemma OtpAcceptsExactlyTheCode(user: Account, code: OtpCode, input: string, ok: bool)
    ensures VerifyOtp(user, IssuedOtp(code), input, ok).Granted? <==>
      ok && |input| == 6 && AllDigits(input) && Value(input) == code
  {
    var issued := IssuedOtp(code);
    if ok && |input| == 6 && AllDigits(input) && Value(input) == code {
      ValueInjective(input, issued);
    }
  }
}
