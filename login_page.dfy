/**
 * The sign-in page (`Login`): a form that is either in login or in register mode,
 * checks that both fields hold something besides whitespace before any request, and
 * after a successful registration returns to login mode with empty fields. Each async
 * step is atomic and the reply it awaits is a parameter.
 */
module LoginPage {
  import opened Wrappers
  import opened Text
  import opened Api

  /** `mode`: "login" or "register". */
  datatype Mode = SignIn | SignUp

  /** A call to the authentication endpoints, with the credentials as sent. */
  datatype AuthRequest = Register(username: string, password: string) | Login(username: string, password: string)

  const FillBothFields := "Preencha usuário e senha."
  const RegisteredNowSignIn := "Registrado. Agora faça login."

  /** All the fields of the form, as one value. */
  datatype FormState = FormState(username: string, password: string, mode: Mode, msg: string, loading: bool)

  const InitialForm := FormState("", "", SignIn, "", false)

  /** `toggleMode`'s updater. */
  function Flipped(m: Mode): (r: Mode)
    ensures r != m
  {
    if m == SignIn then SignUp else SignIn
  }

  /** Toggling twice gives back the mode toggled from. */
  lemma FlippedTwice(m: Mode)
    ensures Flipped(Flipped(m)) == m
  {
  }

  /** The check made before any request: both fields must keep something once trimmed.
      On success, the request the mode calls for, carrying the trimmed credentials. */
  function CheckCredentials(mode: Mode, username: string, password: string): (r: Result<AuthRequest, string>)
    ensures r.Err? <==> Trim(username) == [] || Trim(password) == []
    ensures r.Err? ==> r.error == FillBothFields
    ensures r.Ok? ==> r.value.Register? == (mode == SignUp)
    ensures r.Ok? ==> r.value.username == Trim(username) && r.value.password == Trim(password)
  {
    if Trim(username) == [] || Trim(password) == [] then Err(FillBothFields)
    else if mode == SignUp then Ok(Register(Trim(username), Trim(password)))
    else Ok(Login(Trim(username), Trim(password)))
  }

  /** A field made only of whitespace, or empty, stops the submission. */
  lemma WhitespaceOnlyIsRefused(mode: Mode, username: string, password: string)
    requires forall i :: 0 <= i < |username| ==> IsJsWhitespace(username[i])
    ensures CheckCredentials(mode, username, password) == Err(FillBothFields)
  {
  }

  /** The form once a sent request has settled: `loading` is false; a failure shows its
      message and keeps mode and fields; a registration returns to login mode with empty
      fields and the registered message; a login keeps the form as it was. */
  function Settled(st: FormState, request: AuthRequest, reply: Reply<string>): (r: FormState)
    ensures !r.loading
    ensures reply.Failed? ==> r == st.(msg := reply.message, loading := false)
    ensures reply.Done? && request.Register? ==> r == FormState("", "", SignIn, RegisteredNowSignIn, false)
    ensures reply.Done? && request.Login? ==> r == st.(loading := false)
  {
    match reply
    case Failed(message) => st.(msg := message, loading := false)
    case Done(_) =>
      if request.Register? then FormState("", "", SignIn, RegisteredNowSignIn, false)
      else st.(loading := false)
  }

  class LoginForm {
    var username: string
    var password: string
    var mode: Mode
    var msg: string
    var loading: bool

    function State(): FormState
      reads this
    {
      FormState(username, password, mode, msg, loading)
    }

    constructor()
      ensures State() == InitialForm
    {
      username, password, mode, msg, loading := "", "", SignIn, "", false;
    }

    /** `resetFeedback`. */
    method ResetFeedback()
      modifies this
      ensures State() == old(State()).(msg := "")
    {
      msg := "";
    }

    /** `toggleMode`: the other mode, with the message and both fields cleared. */
    method ToggleMode()
      modifies this
      ensures State() == old(State()).(mode := Flipped(old(mode)), username := "", password := "", msg := "")
    {
      ResetFeedback();
      mode := Flipped(mode);
      username := "";
      password := "";
    }

    method SetUsername(text: string)
      modifies this
      ensures State() == old(State()).(username := text)
    {
      username := text;
    }

    method SetPassword(text: string)
      modifies this
      ensures State() == old(State()).(password := text)
    {
      password := text;
    }

    /** `handleSubmit`: a failed check only sets its message and sends nothing; otherwise
        the request for the current mode is sent. Returns the requests sent and the token
        stored, if any; storing a token is followed by navigation to the products page. */
    method HandleSubmit(reply: Reply<string>) returns (sent: seq<AuthRequest>, stored: Option<string>)
      modifies this
      ensures var c := CheckCredentials(old(mode), old(username), old(password));
        c.Err? ==> sent == [] && stored == None && State() == old(State()).(msg := FillBothFields)
      ensures var c := CheckCredentials(old(mode), old(username), old(password));
        c.Ok? ==> sent == [c.value] && State() == Settled(old(State()).(msg := ""), c.value, reply) &&
                  stored == (if c.value.Login? && reply.Done? then Some(reply.body) else None)
    {
      ResetFeedback();
      var check := CheckCredentials(mode, username, password);
      if check.Err? {
        msg := check.error;
        return [], None;
      }
      stored := Send(check.value, reply);
      sent := [check.value];
    }

    /** The part of `handleSubmit` past its check. */
    method Send(request: AuthRequest, reply: Reply<string>) returns (stored: Option<string>)
      modifies this
      ensures State() == Settled(old(State()), request, reply)
      ensures stored == (if request.Login? && reply.Done? then Some(reply.body) else None)
    {
      loading := true;
      stored := None;
      match reply {
        case Failed(message) =>
          msg := message;
        case Done(token) =>
          if request.Register? {
            msg := RegisteredNowSignIn;
            mode := SignIn;
            username := "";
            password := "";
          } else {
            stored := Some(token);
          }
      }
      loading := false;
    }
  }
}
