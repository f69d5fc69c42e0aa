/** The navigation bar (components/Nav.tsx): class-name joining, which link
    is active, the avatar initial, and the state the bar keeps. */
module Nav {
  import opened Wrappers
  import opened Text
  import opened Routes

  // ---------------------------------------------------------------------
  // cn

  /** One argument of `cn`: a class name, or one of the falsy values. */
  datatype ClassArg = Name(name: string) | False | Null | Undefined

  /** `Boolean(x)` on a `cn` argument. */
  predicate Truthy(x: ClassArg) {
    x.Name? && x.name != ""
  }

  /** `xs.filter(Boolean)`, as the class names left. */
  function KeptNames(xs: seq<ClassArg>): (r: seq<string>)
    ensures |r| <= |xs|
    ensures forall w :: w in r ==> w != ""
    ensures forall w :: w in r <==> w != "" && Name(w) in xs
  {
    if xs == [] then []
    else
      assert forall x :: x in xs <==> x == xs[0] || x in xs[1..];
      (if Truthy(xs[0]) then [xs[0].name] else []) + KeptNames(xs[1..])
  }

  /** Keeping the truthy arguments commutes with splitting the argument
      list, so the kept names stay in the arguments' order. */
  lemma {:induction false} KeptNamesAppend(xs: seq<ClassArg>, ys: seq<ClassArg>)
    ensures KeptNames(xs + ys) == KeptNames(xs) + KeptNames(ys)
  {
    if xs == [] {
      assert xs + ys == ys;
    } else {
      assert (xs + ys)[0] == xs[0];
      assert (xs + ys)[1..] == xs[1..] + ys;
      KeptNamesAppend(xs[1..], ys);
    }
  }

  /** One argument: its name when truthy, nothing otherwise. */
  lemma KeptNamesSingle(x: ClassArg)
    ensures KeptNames([x]) == if Truthy(x) then [x.name] else []
  {
    assert [x][1..] == [];
  }

  /** `ws.join(" ")` */
  function JoinWithSpaces(ws: seq<string>): (r: string)
    ensures (forall w :: w in ws ==> w != "") ==> (r == "" <==> ws == [])
  {
    if ws == [] then ""
    else if |ws| == 1 then assert ws[0] in ws; ws[0]
    else ws[0] + " " + JoinWithSpaces(ws[1..])
  }

  /** `cn(...xs)`: empty exactly when no argument is truthy. */
  function Cn(xs: seq<ClassArg>): (r: string)
    ensures r == "" <==> forall x :: x in xs ==> !Truthy(x)
  {
    var ws := KeptNames(xs);
    assert ws != [] ==> ws[0] in ws;
    JoinWithSpaces(ws)
  }

  /** Length of the leading run of characters other than a space. */
  function WordLength(s: string): (n: nat)
    ensures n <= |s|
    ensures forall i :: 0 <= i < n ==> s[i] != ' '
    ensures n < |s| ==> s[n] == ' '
  {
    if s == [] || s[0] == ' ' then 0 else 1 + WordLength(s[1..])
  }

  /** The class list a browser reads from a `class` attribute: the words
      between spaces, with empty ones dropped. */
  function Tokens(s: string): seq<string>
    decreases |s|
  {
    if s == [] then []
    else if s[0] == ' ' then Tokens(s[1..])
    else
      var n := WordLength(s);
      [s[..n]] + Tokens(s[n..])
  }

  lemma {:induction false} WordLengthOf(w: string, rest: string)
    requires ' ' !in w
    requires rest == [] || rest[0] == ' '
    ensures WordLength(w + rest) == |w|
  {
    if w != [] {
      assert (w + rest)[1..] == w[1..] + rest;
      WordLengthOf(w[1..], rest);
    } else {
      assert w + rest == rest;
    }
  }

  /** A string that starts with a space, or is empty, ends the word before it. */
  lemma {:induction false} WordLengthAppend(a: string, b: string)
    requires b == [] || b[0] == ' '
    ensures WordLength(a + b) == WordLength(a)
  {
    if a == [] {
      assert a + b == b;
    } else {
      assert (a + b)[0] == a[0];
      if a[0] != ' ' {
        assert (a + b)[1..] == a[1..] + b;
        WordLengthAppend(a[1..], b);
      }
    }
  }

  /** Reading the classes of `a + b`, where `b` is empty or starts with a
      space, reads those of `a` and then those of `b`. */
  lemma {:induction false} TokensAppend(a: string, b: string)
    requires b == [] || b[0] == ' '
    ensures Tokens(a + b) == Tokens(a) + Tokens(b)
    decreases |a|
  {
    if a == [] {
      assert a + b == b;
    } else if a[0] == ' ' {
      assert (a + b)[0] == ' ';
      assert (a + b)[1..] == a[1..] + b;
      TokensAppend(a[1..], b);
    } else {
      var n := WordLength(a);
      assert (a + b)[0] == a[0];
      WordLengthAppend(a, b);
      assert (a + b)[..n] == a[..n];
      assert (a + b)[n..] == a[n..] + b;
      TokensAppend(a[n..], b);
    }
  }

  /** Two strings joined by a space: the classes of the first, then those of
      the second. */
  lemma TokensOfSpaced(a: string, b: string)
    ensures Tokens(a + " " + b) == Tokens(a) + Tokens(b)
  {
    assert a + " " + b == a + (" " + b);
    TokensAppend(a, " " + b);
    assert (" " + b)[1..] == b;
  }

  /** The classes of each string of `ws`, one string after the other. */
  function AllTokens(ws: seq<string>): seq<string> {
    if ws == [] then [] else Tokens(ws[0]) + AllTokens(ws[1..])
  }

  lemma {:induction false} TokensOfJoinAny(ws: seq<string>)
    ensures Tokens(JoinWithSpaces(ws)) == AllTokens(ws)
  {
    if |ws| == 1 {
      assert ws[1..] == [];
    } else if |ws| > 1 {
      TokensOfJoinAny(ws[1..]);
      TokensOfSpaced(ws[0], JoinWithSpaces(ws[1..]));
    }
  }

  lemma TokensOfWord(w: string, rest: string)
    requires w != [] && ' ' !in w
    requires rest == [] || rest[0] == ' '
    ensures Tokens(w + rest) == [w] + Tokens(rest)
  {
    WordLengthOf(w, rest);
    assert (w + rest)[..|w|] == w;
    assert (w + rest)[|w|..] == rest;
  }

  lemma {:induction false} TokensOfJoin(ws: seq<string>)
    requires forall w :: w in ws ==> w != "" && ' ' !in w
    ensures Tokens(JoinWithSpaces(ws)) == ws
  {
    if |ws| == 1 {
      assert ws[0] in ws;
      TokensOfWord(ws[0], []);
      assert ws[0] + [] == ws[0];
    } else if |ws| > 1 {
      var tail := JoinWithSpaces(ws[1..]);
      assert ws[0] in ws && forall w :: w in ws[1..] ==> w in ws;
      TokensOfJoin(ws[1..]);
      assert ws[0] + " " + tail == ws[0] + (" " + tail);
      TokensOfWord(ws[0], " " + tail);
      assert (" " + tail)[1..] == tail;
    }
  }

  /** Reading the class list back from `cn`'s result gives the classes of
      each truthy argument, argument after argument, whatever spaces the
      arguments hold: falsy arguments add no class and no empty class
      appears. */
  lemma CnClassList(xs: seq<ClassArg>)
    ensures Tokens(Cn(xs)) == AllTokens(KeptNames(xs))
  {
    TokensOfJoinAny(KeptNames(xs));
  }

  /** When every argument is a single class, the classes read back are
      exactly the truthy arguments, in order. */
  lemma CnClassListSingleWords(xs: seq<ClassArg>)
    requires forall x :: x in xs && x.Name? ==> ' ' !in x.name
    ensures Tokens(Cn(xs)) == KeptNames(xs)
  {
    TokensOfJoin(KeptNames(xs));
  }

  lemma CnExamples()
    ensures Cn([Name("a"), Null, Name(""), Name("b")]) == "a b"
    ensures Cn([False, Undefined, Name("")]) == ""
  {
    var xs := [Name("a"), Null, Name(""), Name("b")];
    assert KeptNames(xs) == ["a", "b"];
  }

  /** Arguments holding several classes, as the bar passes them, are joined
      as they are. */
  lemma CnExampleSeveralClasses()
    ensures Cn([Name("a b"), False, Name("c d")]) == "a b c d"
  {
    var ys := [Name("a b"), False, Name("c d")];
    KeptNamesSingle(Name("a b"));
    KeptNamesSingle(False);
    KeptNamesSingle(Name("c d"));
    KeptNamesAppend([Name("a b")], [False]);
    KeptNamesAppend([Name("a b"), False], [Name("c d")]);
    assert [Name("a b")] + [False] + [Name("c d")] == ys;
    var ws := KeptNames(ys);
    assert ws == ["a b", "c d"];
    assert JoinWithSpaces(ws) == "a b" + " " + JoinWithSpaces(["c d"]);
  }

  // ---------------------------------------------------------------------
  // isActive

  /** `isActive(pathname, href)`: the home link only on `/`, any other link
      on its own path and on the paths below it. */
  predicate IsActive(pathname: string, href: string)
    ensures IsActive(pathname, href) ==> href <= pathname
    ensures pathname == href ==> IsActive(pathname, href)
    ensures href == "/" ==> (IsActive(pathname, href) <==> pathname == "/")
  {
    if href == "/" then pathname == "/" else pathname == href || href + "/" <= pathname
  }

  /** For a link other than home: active exactly on its path or on a path
      that continues it after a `/` boundary. */
  lemma IsActiveBoundary(pathname: string, href: string)
    requires href != "/"
    ensures IsActive(pathname, href)
            <==> pathname == href
                 || (|pathname| > |href| && pathname[..|href|] == href && pathname[|href|] == '/')
  {
    if |pathname| > |href| && pathname[..|href|] == href && pathname[|href|] == '/' {
      assert pathname[..|href| + 1] == href + "/";
    }
  }

  lemma IsActiveExamples()
    ensures IsActive("/", "/") && !IsActive("/oglasi", "/")
    ensures IsActive("/oglasi", "/oglasi") && IsActive("/poruke/42", "/poruke")
    ensures !IsActive("/oglasi2", "/oglasi")
  {
    assert "/poruke" + "/" <= "/poruke/42" by {
      assert "/poruke/42"[..8] == "/poruke" + "/";
    }
    assert "/oglasi2"[7] == '2';
  }

  // ---------------------------------------------------------------------
  // initialsFromEmail

  /** `initialsFromEmail(email)`: the first visible character of the
      address, upper-cased, or `?` when there is none. */
  function InitialsFromEmail(email: Option<string>): (r: string)
    ensures |r| == 1
    ensures email.None? || AllSpace(email.value) ==> r == "?"
    ensures email.Some? ==>
              forall k :: 0 <= k < |email.value| && !IsSpace(email.value[k]) && AllSpace(email.value[..k])
                          ==> r == [UpperChar(email.value[k])]
  {
    if email.None? || email.value == "" then "?"
    else
      var t := Trim(email.value);
      TrimFirst(email.value);
      if t == [] then "?" else [UpperChar(t[0])]
  }

  // ---------------------------------------------------------------------
  // The bar's state

  /** A pathname as the bar uses it: never empty. */
  type Pathname = s: string | s != "" witness "/"

  /** `usePathname() || "/"` */
  function PathOrRoot(p: Option<string>): (r: Pathname)
    ensures p.Some? && p.value != "" ==> r == p.value
    ensures p.None? || p.value == "" ==> r == "/"
  {
    if p.Some? && p.value != "" then p.value else "/"
  }

  /** A session as the bar sees it: only the user's e-mail is read. */
  datatype Session = Session(email: Option<string>)

  datatype NavLink = NavLink(href: string, caption: string, isPublic: bool)

  /** The bar's links; the private ones ask for a session first. */
  const Links: seq<NavLink> := [
    NavLink("/", "Usluge", true),
    NavLink("/oglasi", "Oglasi", true),
    NavLink("/novi-oglas", "Novi oglas", false),
    NavLink("/poruke", "Poruke", false),
    NavLink("/profil", "Profil", false)
  ]

  class NavBar {
    var pathname: Pathname
    var email: Option<string>
    var isAuthed: bool
    var mobileOpen: bool

    constructor (routerPath: Option<string>)
      ensures pathname == PathOrRoot(routerPath)
      ensures email == None && !isAuthed && !mobileOpen
    {
      pathname := PathOrRoot(routerPath);
      email := None;
      isAuthed := false;
      mobileOpen := false;
    }

    /** The `getSession` answer on mount and every `onAuthStateChange` event. */
    method OnSession(session: Option<Session>)
      modifies this`isAuthed, this`email
      ensures isAuthed <==> session.Some?
      ensures email == if session.Some? then session.value.email else None
    {
      isAuthed := session.Some?;
      email := if session.Some? then session.value.email else None;
    }

    /** A navigation: the new pathname is read, and the effect watching it
        closes the mobile menu only when the pathname changed. */
    method OnRouteChange(routerPath: Option<string>)
      modifies this`pathname, this`mobileOpen
      ensures pathname == PathOrRoot(routerPath)
      ensures mobileOpen == (old(mobileOpen) && PathOrRoot(routerPath) == old(pathname))
    {
      var next := PathOrRoot(routerPath);
      if next != pathname {
        mobileOpen := false;
      }
      pathname := next;
    }

    /** The hamburger button. */
    method ToggleMobileMenu()
      modifies this`mobileOpen
      ensures mobileOpen == !old(mobileOpen)
    {
      mobileOpen := !mobileOpen;
    }

    /** `goAuthed(targetPath)`: the path pushed to the router. Without a
        session it is the sign-in page, told to come back here. */
    method GoAuthed(targetPath: string, encode: string -> string) returns (pushed: string)
      ensures isAuthed ==> pushed == targetPath
      ensures !isAuthed ==> pushed == LoginUrl(pathname, encode)
      ensures IsInternalPath(targetPath) ==> IsInternalPath(pushed)
    {
      if !isAuthed {
        var next := PathOrRoot(Some(pathname));
        LoginUrlIsInternal(next, encode);
        pushed := LoginUrl(next, encode);
        return;
      }
      pushed := targetPath;
    }

    /** A click on one of the bar's links: public links are followed as
        they are, private ones go through `GoAuthed`. */
    method Follow(link: NavLink, encode: string -> string) returns (pushed: string)
      ensures link.isPublic || isAuthed ==> pushed == link.href
      ensures !link.isPublic && !isAuthed ==> pushed == LoginUrl(pathname, encode)
    {
      if link.isPublic {
        pushed := link.href;
      } else {
        pushed := GoAuthed(link.href, encode);
      }
    }
  }

  /** Every link of the bar is an internal path, so following one never
      leaves the site, with or without a session. */
  lemma LinksAreInternal()
    ensures forall l :: l in Links ==> IsInternalPath(l.href)
  {
    assert "/oglasi"[1] == 'o';
    assert "/novi-oglas"[1] == 'n';
    assert "/poruke"[1] == 'p';
    assert "/profil"[1] == 'p';
  }
}
