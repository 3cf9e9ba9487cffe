/** The request middleware: a signed-in user is kept away from the login
    pages, and a signed-out user is kept on them. */
module Middleware {
  import opened Wrappers
  import opened Text

  const LoginPath: string := "/login"
  const DashboardPath: string := "/dashboard"

  /** The redirect target for a request, or `None` to let it through.
      `hasSession` says whether the `session_data` cookie is present. */
  function Middleware(hasSession: bool, pathname: string): (r: Option<string>)
    ensures r == Some(DashboardPath) <==> hasSession && StartsWith(pathname, LoginPath)
    ensures r == Some(LoginPath) <==> !hasSession && !StartsWith(pathname, LoginPath)
    ensures r.Some? ==> r == Some(DashboardPath) || r == Some(LoginPath)
  {
    if hasSession && StartsWith(pathname, LoginPath) then Some(DashboardPath)
    else if !hasSession && !StartsWith(pathname, LoginPath) then Some(LoginPath)
    else None
  }

  /** A signed-in user off the login pages, and a signed-out user on them,
      are let through. */
  lemma PassThrough(hasSession: bool, pathname: string)
    ensures Middleware(hasSession, pathname).None? <==> (hasSession != StartsWith(pathname, LoginPath))
  {
  }

  /** Following a redirect with the same cookie state is never redirected again. */
  lemma NoRedirectLoop(hasSession: bool, pathname: string)
    requires Middleware(hasSession, pathname).Some?
    ensures Middleware(hasSession, Middleware(hasSession, pathname).value).None?
  {
    if hasSession {
      assert DashboardPath[..|LoginPath|] != LoginPath by {
        assert DashboardPath[1] != LoginPath[1];
      }
    } else {
      assert LoginPath[..|LoginPath|] == LoginPath;
    }
  }
}
