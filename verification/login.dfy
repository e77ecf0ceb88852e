/** The sign-in dialog of src/components/Login.jsx: three modes (sign in,
    sign up, password reset), the links between them, the field reset on a
    mode switch, and the submit handler's per-mode request, checks and
    messages. The identity provider's answer and the page origin are
    parameters. */
module Login {
  import opened Wrappers

  datatype Mode = SignIn | SignUp | Reset

  /** The dialog's state. */
  datatype LoginState = LoginState(
    email: string,
    password: string,
    confirmPassword: string,
    error: Option<string>,
    message: Option<string>,
    loading: bool,
    mode: Mode)

  const InitialLogin: LoginState := LoginState("", "", "", None, None, false, SignIn)

  /** `switchMode(m)`: the new mode, with every field, the error and the
      message cleared. */
  function SwitchMode(st: LoginState, m: Mode): (r: LoginState)
    ensures r.mode == m
    ensures r.email == "" && r.password == "" && r.confirmPassword == ""
    ensures r.error.None? && r.message.None?
    ensures r.loading == st.loading
  {
    LoginState("", "", "", None, None, st.loading, m)
  }

  /** Nothing typed before a switch survives it: the state after a switch
      depends only on the target mode and the loading flag. */
  lemma SwitchForgetsInput(a: LoginState, b: LoginState, m: Mode)
    requires a.loading == b.loading
    ensures SwitchMode(a, m) == SwitchMode(b, m)
  {
  }

  /** The mode links rendered under the form in each mode. */
  function Offered(m: Mode): set<Mode> {
    match m
    case SignIn => {Reset, SignUp}
    case SignUp => {SignIn}
    case Reset => {SignIn}
  }

  /** Every link leads to another mode, sign-in is one click from anywhere,
      and there is no direct link between sign-up and reset. */
  lemma OfferedTransitions(m: Mode)
    ensures m !in Offered(m)
    ensures m != SignIn ==> Offered(m) == {SignIn}
    ensures Offered(SignIn) == {Reset, SignUp}
    ensures Reset !in Offered(SignUp) && SignUp !in Offered(Reset)
  {
  }

  /** `path` is a sequence of link clicks that the dialog offers, starting in
      mode `start`. */
  predicate ValidPath(start: Mode, path: seq<Mode>) {
    && (|path| > 0 ==> path[0] in Offered(start))
    && (forall i :: 1 <= i < |path| ==> path[i] in Offered(path[i - 1]))
  }

  /** Following the links of `path` from `st`. */
  function Follow(st: LoginState, path: seq<Mode>): LoginState
    decreases |path|
  {
    if |path| == 0 then st else Follow(SwitchMode(st, path[0]), path[1..])
  }

  /** Following a non-empty path of offered links ends in the last mode
      clicked, with the fields cleared. */
  lemma {:induction false} FollowEndsInLastMode(st: LoginState, path: seq<Mode>)
    requires |path| > 0
    ensures Follow(st, path).mode == path[|path| - 1]
    ensures Follow(st, path) == SwitchMode(st, path[|path| - 1])
    decreases |path|
  {
    if |path| > 1 {
      FollowEndsInLastMode(SwitchMode(st, path[0]), path[1..]);
    }
  }

  /** Going between sign-up and reset, in either direction, passes through
      sign-in. */
  lemma SignUpResetGoThroughSignIn(start: Mode, path: seq<Mode>)
    requires start in {SignUp, Reset}
    requires ValidPath(start, path)
    requires |path| > 0 && path[|path| - 1] in {SignUp, Reset} - {start}
    ensures SignIn in path
  {
    assert path[0] == SignIn;
  }

  /** The password input is shown except in reset mode. */
  predicate ShowsPassword(m: Mode) {
    m != Reset
  }

  /** The confirmation input is shown in sign-up mode only. */
  predicate ShowsConfirm(m: Mode) {
    m == SignUp
  }

  /** The confirmation input is only ever shown together with the password
      input, and reset mode asks for the email alone. */
  lemma FieldsShown(m: Mode)
    ensures ShowsConfirm(m) ==> ShowsPassword(m)
    ensures ShowsPassword(m) <==> m in {SignIn, SignUp}
    ensures ShowsConfirm(m) <==> m == SignUp
  {
  }

  /** A request to the identity provider. */
  datatype AuthRequest =
    | SignInRequest(email: string, password: string)
    | SignUpRequest(email: string, password: string)
    | ResetRequest(email: string, redirectTo: string)

  /** The identity provider's answer: success, or an error whose message may
      be empty. */
  datatype AuthReply = AuthOk | AuthError(message: string)

  const MsgPasswordsDiffer := "Passwords do not match"
  const MsgSignedUp := "Sign up successful! Please check your email for verification."
  const MsgResetSent := "Password reset email sent. Please check your inbox."

  /** The error text used when the error carries no message. */
  function Fallback(m: Mode): string {
    match m
    case SignIn => "Failed to sign in"
    case SignUp => "Failed to sign up"
    case Reset => "Failed to reset password"
  }

  /** The state while a submission is in flight: error and message cleared,
      loading. */
  function BeginSubmit(st: LoginState): (r: LoginState)
    ensures r.error.None? && r.message.None? && r.loading
    ensures r.(error := st.error, message := st.message, loading := st.loading) == st
  {
    st.(error := None, message := None, loading := true)
  }

  /** The dialog after `handleSubmit`, the request it sent (if any) and
      whether it called `onClose`. */
  datatype SubmitResult = SubmitResult(state: LoginState, request: Option<AuthRequest>, closed: bool)

  /** `handleSubmit`, with `origin` standing for `window.location.origin` and
      `reply` for the provider's answer to the request, when one is sent. */
  function HandleSubmit(st: LoginState, origin: string, reply: AuthReply): (r: SubmitResult)
    ensures !r.state.loading
    ensures r.state.(error := st.error, message := st.message, loading := st.loading) == st
    ensures r.request.None? <==> st.mode == SignUp && st.password != st.confirmPassword
    ensures r.request.None? ==> r.state.error == Some(MsgPasswordsDiffer) && r.state.message.None? && !r.closed
    ensures st.mode == SignIn ==> r.request == Some(SignInRequest(st.email, st.password))
    ensures st.mode == SignUp && r.request.Some? ==> r.request == Some(SignUpRequest(st.email, st.password))
    ensures st.mode == Reset ==> r.request == Some(ResetRequest(st.email, origin + "/reset-password"))
    ensures r.closed <==> st.mode == SignIn && reply == AuthOk
    ensures !(r.state.error.Some? && r.state.message.Some?)
    ensures r.state.error.Some? ==> r.state.error.value != ""
    ensures r.request.Some? && reply.AuthError? ==>
      r.state.error == Some(if reply.message == "" then Fallback(st.mode) else reply.message) && r.state.message.None?
    ensures r.request.Some? && reply == AuthOk ==> r.state.error.None?
    ensures r.request.Some? && reply == AuthOk ==>
      r.state.message == match st.mode case SignIn => None case SignUp => Some(MsgSignedUp) case Reset => Some(MsgResetSent)
  {
    var busy := BeginSubmit(st);
    var request :=
      match st.mode
      case SignIn => Some(SignInRequest(st.email, st.password))
      case SignUp => if st.password != st.confirmPassword then None else Some(SignUpRequest(st.email, st.password))
      case Reset => Some(ResetRequest(st.email, origin + "/reset-password"));
    var done := busy.(loading := false);
    if request.None? then
      SubmitResult(done.(error := Some(MsgPasswordsDiffer)), None, false)
    else
      match reply
      case AuthError(m) =>
        SubmitResult(done.(error := Some(if m == "" then Fallback(st.mode) else m)), request, false)
      case AuthOk =>
        match st.mode
        case SignIn => SubmitResult(done, request, true)
        case SignUp => SubmitResult(done.(message := Some(MsgSignedUp)), request, false)
        case Reset => SubmitResult(done.(message := Some(MsgResetSent)), request, false)
  }

  /** A sign-up whose two passwords differ fails the same way whatever the
      provider would have answered, since nothing is sent. */
  lemma MismatchNeedsNoProvider(st: LoginState, origin: string, a: AuthReply, b: AuthReply)
    requires st.mode == SignUp && st.password != st.confirmPassword
    ensures HandleSubmit(st, origin, a) == HandleSubmit(st, origin, b)
  {
  }

  /** Only sign-in closes the dialog; a successful sign-up or reset keeps it
      open with a success message. */
  lemma OnlySignInCloses(st: LoginState, origin: string, reply: AuthReply)
    requires st.mode != SignIn
    ensures !HandleSubmit(st, origin, reply).closed
  {
  }
}
