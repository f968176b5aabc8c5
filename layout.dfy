/** The navigation bar's logic in `src/frontend/components/Layout.js`: which pages hide the
    bar's session links, the name in the greeting and who sees the dashboard link. */
module Layout {
  import opened Common
  import opened UserModel
  import opened Session
  import opened AuthContext

  const AuthPages: seq<string> := ["/select-login", "/login", "/register", "/forgot-password", "/login-2fa"]

  /** `authPages.includes(router.pathname)`. */
  predicate IsAuthPage(pathname: string)
  {
    pathname in AuthPages
  }

  /** Every page `login` redirects to is outside the auth pages, and the page `logout`
      redirects to is one of them. */
  lemma RedirectsAndAuthPages(role: string)
    ensures !IsAuthPage(RouteForRole(role))
    ensures IsAuthPage("/select-login")
  {
    assert RouteForRole(role) != AuthPages[0] && RouteForRole(role) != AuthPages[1];
  }

  /** `s.split('@')[0]`: the text before the first '@', or all of `s` without one. */
  function BeforeAt(s: string): (r: string)
    ensures |r| <= |s| && r == s[..|r|]
    ensures forall i :: 0 <= i < |r| ==> r[i] != '@'
    ensures |r| < |s| ==> s[|r|] == '@'
  {
    if |s| == 0 || s[0] == '@' then ""
    else [s[0]] + BeforeAt(s[1..])
  }

  /** `getUsername()`: nothing without a user or a (non-empty) email. */
  function GetUsername(user: Option<SessionUser>): (r: Option<string>)
    ensures r.None? <==> user.None? || user.value.email.None? || user.value.email.value == ""
    ensures r.Some? ==>
              var email := user.value.email.value;
              && |r.value| <= |email| && r.value == email[..|r.value|] && '@' !in r.value
              && ('@' in email ==> email[|r.value|] == '@')
              && ('@' !in email ==> r.value == email)
  {
    if user.None? || user.value.email.None? || user.value.email.value == "" then None
    else
      var email := user.value.email.value;
      var r := BeforeAt(email);
      assert '@' !in r by {
        forall i | 0 <= i < |r| ensures r[i] != '@' { }
      }
      assert |r| == |email| ==> r == email;
      Some(r)
  }

  /** The dashboard link: `user.role === 'Organizer' || user.role === 'Admin'`. */
  predicate ShowDashboardLink(user: Option<SessionUser>)
  {
    user.Some? && (user.value.role == "Organizer" || user.value.role == "Admin")
  }

  /** The claims of a token the backend issues: `{ id, role }`, with no email. */
  function IssuedClaims(t: Token): Claims
  {
    Claims(t.id, RoleName(t.role), None)
  }

  /** A session opened with a token the backend issued greets nobody by name, since the
      backend never signs an email into its tokens, and shows the dashboard link exactly
      for organizers and admins. */
  lemma IssuedTokenSession(jwt: string, decode: string -> Option<Payload>, t: Token, exp: Option<int>, now: int)
    requires jwt != "" && decode(jwt) == Some(Payload(exp, Some(IssuedClaims(t))))
    requires exp.None? || exp.value * 1000 >= now
    ensures var user := Restore(Some(jwt), decode, now).user;
            && user.Some? && GetUsername(user).None?
            && (ShowDashboardLink(user) <==> t.role != User)
  {
  }
}
