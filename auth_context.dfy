/** The client-side session of `src/frontend/contexts/AuthContext.js`: the `user`,
    `token` and `loading` state of `AuthProvider`, the `'token'` entry of local storage and
    the pages pushed onto the router. `jwtDecode` is a function parameter (`None` when it
    throws) and `Date.now()` the parameter `now`. */
module AuthContext {
  import opened Common

  /** `decoded.user`: the claims the backend signs. */
  datatype Claims = Claims(id: nat, role: string, email: Option<string>)

  /** A decoded token: `exp` in seconds and the `user` claims, either possibly absent. */
  datatype Payload = Payload(exp: Option<int>, user: Option<Claims>)

  /** The `{ id, role, email }` object kept in the `user` state. */
  datatype SessionUser = SessionUser(id: nat, role: string, email: Option<string>)

  function UserOf(c: Claims): SessionUser
  {
    SessionUser(c.id, c.role, c.email)
  }

  /** `decoded.exp * 1000 < Date.now()`: an absent `exp` gives NaN, which is not less than
      anything, so such a token never expires here. */
  predicate Expired(p: Payload, now: int)
  {
    p.exp.Some? && p.exp.value * 1000 < now
  }

  /** The state the mount effect leaves: the `user` and `token` state and local storage. */
  datatype Restored = Restored(user: Option<SessionUser>, token: Option<string>, stored: Option<string>)

  /** The mount effect on the stored token. A falsy entry is left alone; a token that
      fails to decode or has expired is removed; a token without `user` claims is set as
      the token state before reading the claims throws, and is then removed. */
  function Restore(stored: Option<string>, decode: string -> Option<Payload>, now: int): (r: Restored)
    ensures stored.None? || stored.value == "" ==> r == Restored(None, None, stored)
    ensures r.user.Some? <==>
              && stored.Some? && stored.value != "" && decode(stored.value).Some?
              && !Expired(decode(stored.value).value, now) && decode(stored.value).value.user.Some?
    ensures r.user.Some? ==>
              r.user == Some(UserOf(decode(stored.value).value.user.value)) && r.token == stored && r.stored == stored
    ensures stored.Some? && stored.value != "" && r.user.None? ==> r.stored.None?
    ensures r.token.Some? ==> r.token == stored && stored.value != ""
    ensures stored.Some? && stored.value != "" &&
            (decode(stored.value).None? || Expired(decode(stored.value).value, now)) ==>
              r == Restored(None, None, None)
    ensures stored.Some? && stored.value != "" && decode(stored.value).Some? &&
            !Expired(decode(stored.value).value, now) && decode(stored.value).value.user.None? ==>
              r == Restored(None, stored, None)
  {
    if stored.None? || stored.value == "" then Restored(None, None, stored)
    else
      match decode(stored.value)
      case None => Restored(None, None, None)
      case Some(p) =>
        if Expired(p, now) then Restored(None, None, None)
        else if p.user.None? then Restored(None, stored, None)
        else Restored(Some(UserOf(p.user.value)), stored, stored)
  }

  /** The page `login` sends a role to. */
  function RouteForRole(role: string): (path: string)
  {
    if role == "Organizer" then "/organiser/dashboard"
    else if role == "Admin" then "/admin/dashboard"
    else "/"
  }

  /** Only the three roles the backend knows reach a page of their own; every other role
      string, including a missing one, lands on the home page. */
  lemma RedirectByRole(role: string)
    ensures RouteForRole(role) == "/organiser/dashboard" <==> role == "Organizer"
    ensures RouteForRole(role) == "/admin/dashboard" <==> role == "Admin"
    ensures RouteForRole(role) == "/" <==> role != "Organizer" && role != "Admin"
  {
  }

  class AuthProvider {
    var user: Option<SessionUser>
    var token: Option<string>
    var loading: bool
    /** `localStorage.getItem('token')`. */
    var storedToken: Option<string>
    /** The arguments of `router.push`, in order. */
    var pushes: seq<string>

    /** Mounting the provider over local storage holding `stored`, then its effect. */
    constructor (stored: Option<string>, decode: string -> Option<Payload>, now: int)
      ensures Restored(user, token, storedToken) == Restore(stored, decode, now)
      ensures !loading && pushes == []
    {
      user := None;
      token := None;
      loading := true;
      storedToken := stored;
      pushes := [];
      if stored.Some? && stored.value != "" {
        var t := stored.value;
        var decoded := decode(t);
        if decoded.None? {
          storedToken := None;
        } else if decoded.value.exp.Some? && decoded.value.exp.value * 1000 < now {
          storedToken := None;
        } else {
          token := Some(t);
          if decoded.value.user.None? {
            storedToken := None;
          } else {
            user := Some(UserOf(decoded.value.user.value));
          }
        }
      }
      loading := false;
    }

    /** `login(newToken)`: the token is stored before it is decoded and stays stored when
      decoding fails; the expiry is not consulted. */
    method Login(newToken: string, decode: string -> Option<Payload>)
      modifies this
      ensures storedToken == Some(newToken) && loading == old(loading)
      ensures decode(newToken).Some? && decode(newToken).value.user.Some? ==>
                var c := decode(newToken).value.user.value;
                && user == Some(UserOf(c)) && token == Some(newToken)
                && pushes == old(pushes) + [RouteForRole(c.role)]
      ensures decode(newToken).None? || decode(newToken).value.user.None? ==>
                user == old(user) && token == old(token) && pushes == old(pushes)
    {
      storedToken := Some(newToken);
      var decoded := decode(newToken);
      if decoded.None? || decoded.value.user.None? {
        // jwtDecode threw, or reading `decoded.user.id` did
        return;
      }
      var c := decoded.value.user.value;
      user := Some(UserOf(c));
      token := Some(newToken);
      pushes := pushes + [RouteForRole(c.role)];
    }

    /** `logout()`. */
    method Logout()
      modifies this
      ensures storedToken.None? && user.None? && token.None? && loading == old(loading)
      ensures pushes == old(pushes) + ["/select-login"]
    {
      storedToken := None;
      user := None;
      token := None;
      pushes := pushes + ["/select-login"];
    }
  }

  /** A session the backend's token opens survives a reload until it expires, and logging
      out leaves nothing for the next mount to restore. */
  method ReloadAndLogout(jwt: string, decode: string -> Option<Payload>, c: Claims, exp: int, now: int)
    requires jwt != "" && decode(jwt) == Some(Payload(Some(exp), Some(c))) && exp * 1000 >= now
  {
    var first := new AuthProvider(None, decode, now);
    first.Login(jwt, decode);
    assert first.user == Some(UserOf(c));
    var reloaded := new AuthProvider(first.storedToken, decode, now);
    assert reloaded.user == Some(UserOf(c)) && reloaded.token == Some(jwt);
    reloaded.Logout();
    var after := new AuthProvider(reloaded.storedToken, decode, now);
    assert after.user.None? && after.token.None?;
  }
}
