/** The route guard run on every request (middleware.ts): the root page sends
    a visitor to the dashboard or the login page, the private sections need a
    session, and a signed-in visitor is kept away from the login and
    registration pages. Whether the request carries a session cookie is an
    input. */
module Middleware {

  datatype Decision = Redirect(target: string) | Next

  const Root: string := "/"
  const Dashboard: string := "/dashboard"
  const Login: string := "/login"
  const Register: string := "/register"

  /** `startsWith("/dashboard") || startsWith("/projects") || startsWith("/team")`:
      a plain prefix test, so "/teams" and "/dashboardx" are private too. */
  predicate IsPrivate(path: string) {
    Dashboard <= path || "/projects" <= path || "/team" <= path
  }

  function Guard(path: string, hasToken: bool): Decision {
    if path == Root then Redirect(if hasToken then Dashboard else Login)
    else if IsPrivate(path) && !hasToken then Redirect(Login)
    else if (path == Login || path == Register) && hasToken then Redirect(Dashboard)
    else Next
  }

  /** The root page goes to the dashboard with a session and to the login page
      without one. */
  lemma RootRedirects()
    ensures Guard(Root, true) == Redirect(Dashboard)
    ensures Guard(Root, false) == Redirect(Login)
  {
  }

  /** Without a session, exactly the root page and the private sections are
      sent to the login page; every other path passes. */
  lemma NoTokenDecision(path: string)
    ensures Guard(path, false) == Redirect(Login) <==> path == Root || IsPrivate(path)
    ensures Guard(path, false) == Next <==> path != Root && !IsPrivate(path)
  {
  }

  /** With a session, exactly the root, login and registration pages are sent
      to the dashboard; every other path passes. */
  lemma TokenDecision(path: string)
    ensures Guard(path, true) == Redirect(Dashboard) <==> path == Root || path == Login || path == Register
    ensures Guard(path, true) == Next <==> path != Root && path != Login && path != Register
  {
  }

  /** A visitor with a session is never sent to the login page, one without
      is never sent to the dashboard, and the guard sends nowhere else. */
  lemma NeverWrongWay(path: string, hasToken: bool)
    ensures hasToken ==> Guard(path, hasToken) != Redirect(Login)
    ensures !hasToken ==> Guard(path, hasToken) != Redirect(Dashboard)
    ensures Guard(path, hasToken).Redirect? ==>
      Guard(path, hasToken).target == Login || Guard(path, hasToken).target == Dashboard
  {
  }

  /** The prefix test reaches past the section names: "/teams" is private,
      while "/settings" passes without a session. */
  lemma PrefixExamples()
    ensures Guard("/teams", false) == Redirect(Login)
    ensures Guard("/dashboardx", false) == Redirect(Login)
    ensures Guard("/settings", false) == Next
  {
    assert "/team" <= "/teams";
    assert Dashboard <= "/dashboardx";
    assert !(Dashboard <= "/settings") && !("/projects" <= "/settings") && !("/team" <= "/settings") by {
      assert "/settings"[1] == 's';
    }
  }
}
