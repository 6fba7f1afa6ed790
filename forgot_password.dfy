/**
 * The forgotten-password form: three steps (email, code, new password) and the alert that
 * reports each outcome. The code is not checked by the server until the last step.
 */
module ForgotPassword {
  import opened Wrappers
  import opened Http
  import opened Store
  import AuthRoutes
  import AuthController

  datatype Severity = InfoAlert | SuccessAlert | ErrorAlert

  datatype Alert = Alert(open: bool, message: string, severity: Severity)

  datatype Fields = Fields(email: string, otp: string, newPassword: string, confirmPassword: string)

  /** The form's state; `navigateLater` is the page the success timer will open. */
  datatype Flow = Flow(activeStep: nat, alert: Alert, fields: Fields, navigateLater: Option<string>)

  const InitialFlow := Flow(0, Alert(false, "", InfoAlert), Fields("", "", "", ""), None)

  function Shown(message: string, severity: Severity): Alert {
    Alert(true, message, severity)
  }

  /**
   * `error.response?.data?.message || fallback`: the body's message when there is a response
   * carrying one, the fallback otherwise.
   */
  function FailureText(response: Option<Reply>, fallback: string): (text: string)
    ensures response.Some? && response.value.message != "" ==> text == response.value.message
    ensures response.None? || response.value.message == "" ==> text == fallback
  {
    if response.Some? && response.value.message != "" then response.value.message else fallback
  }

  function Succeeded(response: Option<Reply>): bool {
    response.Some? && response.value.Success()
  }

  const RequestFallback := "Failed to send OTP. Please try again."
  const ResetFallback := "Failed to reset password. Please try again."

  /** The body of the reset request. */
  datatype ResetBody = ResetBody(email: string, otp: string, newPassword: string)

  /** What the reset route's rules see of that body (`emailFormat` is the library's verdict). */
  function ServerResetForm(b: ResetBody, emailFormat: bool): (g: AuthRoutes.ResetForm)
    ensures g.email == b.email && g.otp == b.otp && g.newPassword == b.newPassword
  {
    AuthRoutes.ResetForm(b.email, emailFormat, b.otp, b.newPassword)
  }

  datatype Step<P> = Step(flow: Flow, posted: Option<P>)

  /** handleRequestOTP: `response` is the forgot-password route's answer when it is called. */
  function RequestOtp(s: Flow, response: Option<Reply>): (r: Step<string>)
    ensures s.fields.email == [] ==>
      r == Step(s.(alert := Shown("Please enter your email", ErrorAlert)), None)
    ensures s.fields.email != [] ==> r.posted == Some(s.fields.email)
    ensures r.flow.activeStep == if s.fields.email != [] && Succeeded(response) then 1 else s.activeStep
    ensures s.fields.email != [] && !Succeeded(response) ==>
      r.flow.alert == Shown(FailureText(response, RequestFallback), ErrorAlert)
    ensures r.flow == s.(activeStep := r.flow.activeStep, alert := r.flow.alert)
  {
    if s.fields.email == [] then Step(s.(alert := Shown("Please enter your email", ErrorAlert)), None)
    else if Succeeded(response) then
      Step(s.(alert := Shown("OTP has been sent to your email", SuccessAlert), activeStep := 1), Some(s.fields.email))
    else Step(s.(alert := Shown(FailureText(response, RequestFallback), ErrorAlert)), Some(s.fields.email))
  }

  /** handleVerifyOTP: any non-empty code moves on; nothing is sent. */
  function VerifyOtp(s: Flow): (t: Flow)
    ensures s.fields.otp == [] ==> t == s.(alert := Shown("Please enter the OTP", ErrorAlert))
    ensures s.fields.otp != [] ==> t == s.(activeStep := 2)
  {
    if s.fields.otp == [] then s.(alert := Shown("Please enter the OTP", ErrorAlert)) else s.(activeStep := 2)
  }

  /** handleResetPassword: two guards, then the email, the code and the new password are sent. */
  function ResetPassword(s: Flow, response: Option<Reply>): (r: Step<ResetBody>)
    ensures s.fields.newPassword == [] ==>
      r == Step(s.(alert := Shown("Please enter a new password", ErrorAlert)), None)
    ensures s.fields.newPassword != [] && s.fields.newPassword != s.fields.confirmPassword ==>
      r == Step(s.(alert := Shown("Passwords do not match", ErrorAlert)), None)
    ensures r.posted.Some? <==> s.fields.newPassword != [] && s.fields.newPassword == s.fields.confirmPassword
    ensures r.posted.Some? ==> r.posted.value == ResetBody(s.fields.email, s.fields.otp, s.fields.newPassword)
    ensures r.flow.navigateLater != s.navigateLater ==> r.posted.Some? && Succeeded(response)
    ensures r.posted.Some? && !Succeeded(response) ==>
      r.flow.alert == Shown(FailureText(response, ResetFallback), ErrorAlert)
    ensures r.flow.activeStep == s.activeStep && r.flow.fields == s.fields
  {
    var f := s.fields;
    if f.newPassword == [] then Step(s.(alert := Shown("Please enter a new password", ErrorAlert)), None)
    else if f.newPassword != f.confirmPassword then Step(s.(alert := Shown("Passwords do not match", ErrorAlert)), None)
    else
      var body := ResetBody(f.email, f.otp, f.newPassword);
      if Succeeded(response) then
        Step(s.(alert := Shown("Password reset successful. You can now log in with your new password.", SuccessAlert),
                navigateLater := Some("/login")), Some(body))
      else Step(s.(alert := Shown(FailureText(response, ResetFallback), ErrorAlert)), Some(body))
  }

  /** The "Resend OTP" button of the second step. */
  function Resend(s: Flow): (t: Flow)
    ensures t.activeStep == 0 && t == s.(activeStep := 0)
  {
    s.(activeStep := 0)
  }

  /** The steps of the form never leave the three steps of its stepper. */
  lemma StepsStayInRange(s: Flow, response: Option<Reply>)
    requires s.activeStep <= 2
    ensures RequestOtp(s, response).flow.activeStep <= 2 && VerifyOtp(s).activeStep <= 2
    ensures ResetPassword(s, response).flow.activeStep <= 2 && Resend(s).activeStep <= 2
  {
  }

  /**
   * The whole walk: an email the server accepts, any non-empty code, and a confirmed password
   * end at the last step with exactly those three values sent.
   */
  lemma WalkThrough(f: Fields, sent: Reply, reset: Option<Reply>)
    requires f.email != [] && f.otp != [] && f.newPassword != [] && f.newPassword == f.confirmPassword
    requires sent.Success()
    ensures var s1 := RequestOtp(InitialFlow.(fields := f), Some(sent)).flow;
      && s1.activeStep == 1
      && VerifyOtp(s1).activeStep == 2
      && ResetPassword(VerifyOtp(s1), reset).posted == Some(ResetBody(f.email, f.otp, f.newPassword))
  {
  }

  /**
   * The code step checks nothing but presence: a code of the wrong length reaches the last step,
   * where the route's rules refuse it with no message, so the form shows its own fallback.
   */
  lemma ShortCodeShowsFallback(s: Flow, db: Db, emailFormat: bool, now: int)
    requires s.activeStep == 2 && s.fields.otp != [] && |s.fields.otp| != AuthRoutes.OtpLength
    requires s.fields.newPassword != [] && s.fields.newPassword == s.fields.confirmPassword
    ensures var f := s.fields;
      var body := ResetBody(f.email, f.otp, f.newPassword);
      var reply := AuthController.ResetPassword(db, ServerResetForm(body, emailFormat), now).reply;
      ResetPassword(s, Some(reply)).flow.alert == Shown(ResetFallback, ErrorAlert)
      && ResetPassword(s, Some(reply)).flow.navigateLater == s.navigateLater
  {
    var f := s.fields;
    var g := ServerResetForm(ResetBody(f.email, f.otp, f.newPassword), emailFormat);
    assert AuthRoutes.ResetErrors(g) != [];
  }

  /** The form component, with its state as fields; the `loading` flag is not kept. */
  class ForgotPasswordForm {
    var activeStep: nat
    var alert: Alert
    var fields: Fields
    var navigateLater: Option<string>

    function State(): Flow
      reads this
    {
      Flow(activeStep, alert, fields, navigateLater)
    }

    constructor ()
      ensures State() == InitialFlow
    {
      activeStep, alert, fields, navigateLater := 0, Alert(false, "", InfoAlert), Fields("", "", "", ""), None;
    }

    method Change(next: Fields)
      modifies this
      ensures State() == old(State()).(fields := next)
    {
      fields := next;
    }

    method CloseAlert()
      modifies this
      ensures State() == old(State()).(alert := old(alert).(open := false))
    {
      alert := alert.(open := false);
    }

    method HandleRequestOtp(response: Option<Reply>) returns (posted: Option<string>)
      modifies this
      ensures State() == RequestOtp(old(State()), response).flow
      ensures posted == RequestOtp(old(State()), response).posted
    {
      if fields.email == [] {
        alert := Shown("Please enter your email", ErrorAlert);
        return None;
      }
      posted := Some(fields.email);
      if Succeeded(response) {
        alert := Shown("OTP has been sent to your email", SuccessAlert);
        activeStep := 1;
      } else {
        alert := Shown(FailureText(response, RequestFallback), ErrorAlert);
      }
    }

    method HandleVerifyOtp()
      modifies this
      ensures State() == VerifyOtp(old(State()))
    {
      if fields.otp == [] {
        alert := Shown("Please enter the OTP", ErrorAlert);
        return;
      }
      activeStep := 2;
    }

    method HandleResetPassword(response: Option<Reply>) returns (posted: Option<ResetBody>)
      modifies this
      ensures State() == ResetPassword(old(State()), response).flow
      ensures posted == ResetPassword(old(State()), response).posted
    {
      if fields.newPassword == [] {
        alert := Shown("Please enter a new password", ErrorAlert);
        return None;
      }
      if fields.newPassword != fields.confirmPassword {
        alert := Shown("Passwords do not match", ErrorAlert);
        return None;
      }
      posted := Some(ResetBody(fields.email, fields.otp, fields.newPassword));
      if Succeeded(response) {
        alert := Shown("Password reset successful. You can now log in with your new password.", SuccessAlert);
        navigateLater := Some("/login");
      } else {
        alert := Shown(FailureText(response, ResetFallback), ErrorAlert);
      }
    }

    method HandleResend()
      modifies this
      ensures State() == Resend(old(State()))
    {
      activeStep := 0;
    }
  }
}
