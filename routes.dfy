/** In-app paths shared by the pages: the test a path to come back to must
    pass, and the sign-in URL that carries it. */
module Routes {

  /** The test `safeNext` applies to a path: it starts with `/` but not with
      `//`, which a browser would read as a protocol-relative URL to another
      host. Other spellings a browser also reads as another host (a `\` after the
      first `/`, or a tab before a second `/`) pass it. */
  predicate IsInternalPath(s: string) {
    "/" <= s && !("//" <= s)
  }

  /** `/login?next=<encoded next>`; `encode` stands for `encodeURIComponent`. */
  function LoginUrl(next: string, encode: string -> string): (r: string)
    ensures "/login?next=" <= r && r[|"/login?next="|..] == encode(next)
  {
    "/login?next=" + encode(next)
  }

  /** Whatever is encoded into it, the sign-in URL is an internal path. */
  lemma LoginUrlIsInternal(next: string, encode: string -> string)
    ensures IsInternalPath(LoginUrl(next, encode))
  {
    var u := LoginUrl(next, encode);
    assert u[0] == '/' && u[1] == 'l';
  }
}
