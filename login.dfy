/** The sign-in / registration form (app/login/LoginClient.tsx): the guard on
    the `next` parameter, the mode toggle and where the form sends the user. */
module LoginClient {
  import opened Wrappers
  import opened Routes

  /** `safeNext(nextParam)`: the `next` query parameter when it is an internal
      path, `/` otherwise (missing, empty, external or protocol-relative). */
  function SafeNext(nextParam: Option<string>): (r: string)
    ensures IsInternalPath(r)
    ensures nextParam.Some? && IsInternalPath(nextParam.value) ==> r == nextParam.value
    ensures !(nextParam.Some? && IsInternalPath(nextParam.value)) ==> r == "/"
  {
    if nextParam.None? || nextParam.value == "" then "/"
    else if !("/" <= nextParam.value) then "/"
    else if "//" <= nextParam.value then "/"
    else nextParam.value
  }

  /** Sanitising an already sanitised path changes nothing. */
  lemma SafeNextIdempotent(nextParam: Option<string>)
    ensures SafeNext(Some(SafeNext(nextParam))) == SafeNext(nextParam)
  {
  }

  /** The guard on a few typical parameters. */
  lemma SafeNextExamples()
    ensures SafeNext(None) == "/" && SafeNext(Some("")) == "/"
    ensures SafeNext(Some("https://evil.example/")) == "/"
    ensures SafeNext(Some("//evil.example/")) == "/"
    ensures SafeNext(Some("/poruke")) == "/poruke"
  {
    assert "https://evil.example/"[0] == 'h';
    assert "//" <= "//evil.example/";
    assert "/poruke"[1] == 'p';
  }

  /** The guard as written lets through paths that start with `/` and then a
      backslash, or a tab before a second `/`. */
  lemma SafeNextLetsBackslashThrough()
    ensures IsInternalPath("/\\evil.example") && SafeNext(Some("/\\evil.example")) == "/\\evil.example"
    ensures IsInternalPath("/\t/evil.example") && SafeNext(Some("/\t/evil.example")) == "/\t/evil.example"
  {
    assert "/\\evil.example"[1] == '\\';
    assert "/\t/evil.example"[1] == '\t';
  }

  datatype Mode = Login | Register

  /** The mode the toggle button switches to. */
  function Toggled(m: Mode): (r: Mode)
    ensures r != m
  {
    if m == Login then Register else Login
  }

  /** Toggling twice restores the mode. */
  lemma ToggledTwice(m: Mode)
    ensures Toggled(Toggled(m)) == m
  {
  }

  /** An error thrown by the authentication service; its message may be missing. */
  datatype AuthError = AuthError(message: Option<string>)

  /** `err?.message ?? "Greška"` */
  function ErrorText(e: AuthError): (r: string)
    ensures e.message.Some? ==> r == e.message.value
    ensures e.message.None? ==> r == "Greška"
  {
    e.message.GetOr("Greška")
  }

  /** The paths `SafeNext` can return. */
  type InternalPath = s: string | IsInternalPath(s) witness "/"

  class LoginForm {
    const nextPath: InternalPath
    var mode: Mode
    var displayName: string
    var email: string
    var password: string
    var error: Option<string>
    var busy: bool

    /** The form as first rendered, for the page's `next` parameter. */
    constructor (nextParam: Option<string>)
      ensures nextPath == SafeNext(nextParam)
      ensures mode == Login && error == None && !busy
      ensures displayName == "" && email == "" && password == ""
    {
      nextPath := SafeNext(nextParam);
      mode := Login;
      displayName, email, password := "", "", "";
      error := None;
      busy := false;
    }

    /** On mount: a user who already has a session goes straight to `nextPath`. */
    method OnMount(hasSession: bool) returns (pushed: Option<string>)
      ensures pushed.Some? <==> hasSession
      ensures pushed.Some? ==> pushed.value == nextPath && IsInternalPath(pushed.value)
    {
      pushed := if hasSession then Some(nextPath) else None;
    }

    /** The "register instead" / "sign in instead" button. */
    method ToggleMode()
      modifies this`mode, this`error
      ensures mode == Toggled(old(mode)) && error == None
    {
      error := None;
      mode := if mode == Login then Register else Login;
    }

    /** `onSubmit`. `authError` is what `signUp` (in register mode) or
        `signInWithPassword` (in login mode) reports, and `hasSession` whether a
        session exists right after signing up (none while the e-mail address
        waits for confirmation). Returns the path pushed to the router, if any. */
    method Submit(authError: Option<AuthError>, hasSession: bool, encode: string -> string)
      returns (pushed: Option<string>)
      modifies this`error, this`busy
      ensures !busy
      ensures error == if authError.Some? then Some(ErrorText(authError.value)) else None
      ensures pushed.Some? <==> authError.None?
      ensures authError.None? && (mode == Login || hasSession) ==> pushed == Some(nextPath)
      ensures authError.None? && mode == Register && !hasSession ==> pushed == Some(LoginUrl(nextPath, encode))
      ensures pushed.Some? ==> IsInternalPath(pushed.value)
    {
      error := None;
      busy := true;
      pushed := None;
      if mode == Register {
        if authError.Some? {
          error := Some(ErrorText(authError.value));
        } else if hasSession {
          pushed := Some(nextPath);
        } else {
          LoginUrlIsInternal(nextPath, encode);
          pushed := Some(LoginUrl(nextPath, encode));
        }
      } else {
        if authError.Some? {
          error := Some(ErrorText(authError.value));
        } else {
          pushed := Some(nextPath);
        }
      }
      busy := false;
    }

    /** `loginWithGoogle`: the OAuth flow is told to come back to the sign-in
        page with the same `next`. On an error the message is shown and the
        form is usable again; on success it stays busy while the browser leaves. */
    method LoginWithGoogle(origin: string, oauthError: Option<AuthError>, encode: string -> string)
      returns (redirectTo: string)
      modifies this`error, this`busy
      ensures redirectTo == origin + LoginUrl(nextPath, encode)
      ensures error == if oauthError.Some? then Some(ErrorText(oauthError.value)) else None
      ensures busy <==> oauthError.None?
    {
      error := None;
      busy := true;
      redirectTo := origin + LoginUrl(nextPath, encode);
      if oauthError.Some? {
        error := Some(ErrorText(oauthError.value));
        busy := false;
      }
    }
  }
}
