/** The route table and its guards (frontend/src/Router.jsx). Paths are
    matched without regard to ASCII case, as the router does by default. */
module Router {

  datatype Screen = LoginScreen | SignUpScreen | DashboardScreen | TransactionsScreen | AddTransactionScreen

  /** A route either renders a screen, inside the layout with the navigation
      bar or not, or redirects. */
  datatype Outcome = Render(screen: Screen, withNavBar: bool) | Redirect(to: string)

  predicate IsPrivate(s: Screen)
  {
    s == DashboardScreen || s == TransactionsScreen || s == AddTransactionScreen
  }

  function Lower(c: char): char
  {
    if 'A' <= c <= 'Z' then (c as int + 32) as char else c
  }

  predicate SamePath(a: string, b: string)
  {
    |a| == |b| && forall i :: 0 <= i < |a| ==> Lower(a[i]) == Lower(b[i])
  }

  /** `PublicRoute`: a logged-in user is sent to the dashboard. */
  function PublicRoute(screen: Screen, loggedIn: bool): (o: Outcome)
    ensures o.Redirect? <==> loggedIn
    ensures o.Redirect? ==> o.to == "/Dashboard"
    ensures o.Render? ==> o.screen == screen && !o.withNavBar
  {
    if loggedIn then Redirect("/Dashboard") else Render(screen, false)
  }

  /** `PrivateRoute`: a visitor who is not logged in is sent to "/". */
  function PrivateRoute(screen: Screen, loggedIn: bool): (o: Outcome)
    ensures o.Redirect? <==> !loggedIn
    ensures o.Redirect? ==> o.to == "/"
    ensures o.Render? ==> o.screen == screen && o.withNavBar
  {
    if !loggedIn then Redirect("/") else Render(screen, true)
  }

  /** The route table: two public pages, three private ones under the layout,
      and a catch-all redirect by login state. */
  function Resolve(path: string, loggedIn: bool): Outcome
  {
    if SamePath(path, "/") then PublicRoute(LoginScreen, loggedIn)
    else if SamePath(path, "/SignUp") then PublicRoute(SignUpScreen, loggedIn)
    else if SamePath(path, "/Dashboard") then PrivateRoute(DashboardScreen, loggedIn)
    else if SamePath(path, "/Transactions") then PrivateRoute(TransactionsScreen, loggedIn)
    else if SamePath(path, "/AddTransaction") then PrivateRoute(AddTransactionScreen, loggedIn)
    else Redirect(if loggedIn then "/Dashboard" else "/")
  }

  lemma SamePathRefl(a: string)
    ensures SamePath(a, a)
  {
  }

  /** A screen is rendered only for the right login state: the private ones,
      with the navigation bar, only when logged in; the public ones, without
      it, only when not. */
  lemma GuardsHold(path: string, loggedIn: bool)
    ensures Resolve(path, loggedIn).Render? ==>
      (IsPrivate(Resolve(path, loggedIn).screen) <==> loggedIn)
      && (Resolve(path, loggedIn).withNavBar <==> loggedIn)
  {
  }

  /** Every redirect leads to a path that renders in the same login state, so
      no path redirects twice and none loops. */
  lemma RedirectSettles(path: string, loggedIn: bool)
    ensures Resolve(path, loggedIn).Redirect? ==>
      Resolve(Resolve(path, loggedIn).to, loggedIn).Render?
  {
    assert !SamePath("/", "/Dashboard");
    SamePathRefl("/");
    SamePathRefl("/Dashboard");
  }

  /** Each page's own path renders it when the login state allows; so does
      the same path in another case, such as the "/dashboard" the sign-up
      page navigates to. */
  lemma RoutesRender()
    ensures Resolve("/", false) == Render(LoginScreen, false)
    ensures Resolve("/SignUp", false) == Render(SignUpScreen, false)
    ensures Resolve("/Dashboard", true) == Render(DashboardScreen, true)
    ensures Resolve("/Transactions", true) == Render(TransactionsScreen, true)
    ensures Resolve("/AddTransaction", true) == Render(AddTransactionScreen, true)
    ensures Resolve("/dashboard", true) == Render(DashboardScreen, true)
  {
    SamePathRefl("/");
    SamePathRefl("/SignUp");
    SamePathRefl("/Dashboard");
    SamePathRefl("/Transactions");
    SamePathRefl("/AddTransaction");
    assert !SamePath("/dashboard", "/");
    assert SamePath("/dashboard", "/Dashboard");
  }
}
