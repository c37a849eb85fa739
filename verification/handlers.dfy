/** The index page handler of handlers/handlers.go: a request whose session
    says the user is logged in gets the index page, any other is sent to the
    login page. */
module Handlers {
  import opened Outcomes
  import opened Http

  /** A value stored in a session, as far as a type assertion can tell. */
  datatype SessionValue = BoolVal(b: bool) | StrVal(s: string) | IntVal(i: int)

  /** The session's key/value data; a key that was never set is absent, and
      `session.Get(key)` is `Lookup`. */
  type Session = map<string, SessionValue>

  const LoggedInKey := "loggedIn"
  const LoginPath := "/login"
  const TitleKey := "title"
  const AppTitle := "App"

  /** Go's comma-ok type assertion `v.(bool)`: the boolean and true when `v`
      holds one, otherwise false and false. */
  function AssertBool(v: Option<SessionValue>): (r: (bool, bool))
    ensures r.1 <==> v.Some? && v.value.BoolVal?
    ensures r.0 ==> r.1
    ensures r.1 ==> r.0 == v.value.b
  {
    match v
    case Some(BoolVal(b)) => (b, true)
    case _ => (false, false)
  }

  /** `Index`, with `store` what `SessionStore.Get(c)` gives the request and
      `locals` the request's locals on entry. */
  function Index(locals: map<string, string>, store: Result<Session, string>): (r: Response)
    ensures store.Failure? ==> r == SendStatus(StatusInternalServerError)
    ensures r.status == StatusOK <==> store.Success? && Lookup(store.value, LoggedInKey) == Some(BoolVal(true))
    ensures r.status == StatusOK ==> r.body == Page(IndexView) && r.locals == locals[TitleKey := AppTitle] && r.location.None?
    ensures r.status == StatusFound <==> store.Success? && Lookup(store.value, LoggedInKey) != Some(BoolVal(true))
    ensures r.status == StatusFound ==> r.location == Some(LoginPath) && r.locals == locals && r.body == NoBody
    ensures r.status in {StatusOK, StatusFound, StatusInternalServerError}
  {
    match store
    case Failure(_) => SendStatus(StatusInternalServerError)
    case Success(session) =>
      var (loggedIn, _) := AssertBool(Lookup(session, LoggedInKey));
      if !loggedIn then Redirect(locals, LoginPath)
      else Render(locals[TitleKey := AppTitle], IndexView, StatusOK)
  }

  /** A session that never stored `loggedIn`, or stored something other than
      a boolean under it, counts as logged out. */
  lemma MissingOrNonBoolIsLoggedOut(locals: map<string, string>, session: Session)
    requires LoggedInKey !in session || !session[LoggedInKey].BoolVal?
    ensures Index(locals, Success(session)) == Redirect(locals, LoginPath)
  {
  }

  /** A session that is logged in gets the index page, titled "App". */
  lemma LoggedInGetsIndex(locals: map<string, string>, session: Session)
    requires LoggedInKey in session && session[LoggedInKey] == BoolVal(true)
    ensures Index(locals, Success(session)) == Render(locals[TitleKey := AppTitle], IndexView, StatusOK)
  {
  }

  /** The string "true" is not the boolean true. */
  lemma StringTrueIsLoggedOut(locals: map<string, string>)
    ensures Index(locals, Success(map[LoggedInKey := StrVal("true")])).location == Some(LoginPath)
  {
  }

  /** The page is the only response that sets the title. */
  lemma OnlyIndexSetsTitle(locals: map<string, string>, store: Result<Session, string>)
    requires TitleKey !in locals
    ensures var r := Index(locals, store);
      TitleKey in r.locals <==> r.status == StatusOK
  {
  }
}
