/** The `users` collection and the handlers that change it, as the routes do it: load the
    document, assign its fields one by one, `save()` it back. Each method is proved to
    leave the collection, and to reply, exactly as the rule of the same name in
    `AuthRoutes`, `MfaRoutes` or `AdminRoutes` says, and to keep `StoreInvariant`. A
    loaded document is a copy of the stored one, so it is a value here; `save()` is the
    assignment of the updated copy into the collection. */
module Accounts {
  import opened Common
  import opened UserModel
  import opened Session
  import AuthRoutes
  import MfaRoutes
  import AdminRoutes

  class AccountStore {
    var accounts: seq<Account>

    ghost predicate Valid()
      reads this
    {
      StoreInvariant(accounts)
    }

    constructor ()
      ensures Valid() && accounts == []
    {
      accounts := [];
    }

    /** `POST /register`; `passwordHash` is what bcrypt made of `password`. */
    method Register(email: string, password: string, role: string, passwordHash: string)
      returns (r: AuthRoutes.RegisterReply)
      requires Valid()
      modifies this
      ensures Valid()
      ensures Outcome(r, accounts) == AuthRoutes.Register(old(accounts), email, password, role, passwordHash)
    {
      if email == "" || password == "" {
        return AuthRoutes.MissingFields;
      }
      var userRole := if role == "" then "Organizer" else role;
      var existing := FindByEmail(accounts, email);
      if existing.Some? {
        return AuthRoutes.UserExists;
      }
      var parsed := ParseRole(userRole);
      if parsed.None? {
        // the schema's enum validator rejects the document in save()
        return AuthRoutes.RegisterFailed;
      }
      var user := NewAccount(email, passwordHash, parsed.value);
      var id := |accounts|;
      accounts := accounts + [user];
      r := AuthRoutes.Registered(Token(id, user.role), user.role);
      ghost var spec := AuthRoutes.Register(old(accounts), email, password, role, passwordHash);
      assert spec.accounts == accounts;
    }

    /** `POST /login`; `compare` is `bcrypt.compare`. */
    method Login(email: string, password: string, now: int, compare: (string, string) -> bool)
      returns (r: AuthRoutes.LoginReply)
      requires Valid()
      modifies this
      ensures Valid()
      ensures Outcome(r, accounts) == AuthRoutes.Login(old(accounts), email, password, now, compare)
    {
      var found := FindByEmail(accounts, email);
      if found.None? {
        return AuthRoutes.InvalidCredentials;
      }
      var i := found.value;
      var user := accounts[i];
      if user.isRevoked {
        return AuthRoutes.Revoked;
      }
      if user.lockoutUntil.Some? && user.lockoutUntil.value > now {
        return AuthRoutes.Locked;
      }
      var isMatch := compare(password, user.passwordHash);
      if !isMatch {
        user := user.(failedLoginAttempts := user.failedLoginAttempts + 1);
        if user.failedLoginAttempts >= MaxFailedAttempts {
          user := user.(lockoutUntil := Some(now + LockoutTimeMs));
        }
        accounts := accounts[i := user];
        return AuthRoutes.InvalidCredentials;
      }
      user := user.(failedLoginAttempts := 0);
      user := user.(lockoutUntil := None);
      accounts := accounts[i := user];
      if user.mfaEnabled {
        return AuthRoutes.MfaRequired(i);
      }
      r := AuthRoutes.LoggedIn(Token(i, user.role), user.role);
    }

    /** `POST /forgot-password`; `token` is the random hex token. */
    method ForgotPassword(email: string, token: string, now: int) returns (msg: string)
      requires Valid()
      modifies this
      ensures Valid()
      ensures Outcome(msg, accounts) == AuthRoutes.ForgotPassword(old(accounts), email, token, now)
    {
      var found := FindByEmail(accounts, email);
      if found.None? {
        return AuthRoutes.ResetLinkSent;
      }
      var i := found.value;
      var user := accounts[i];
      user := user.(resetPasswordToken := Some(token));
      user := user.(resetPasswordExpires := Some(now + AuthRoutes.ResetTokenTtlMs));
      accounts := accounts[i := user];
      msg := AuthRoutes.ResetLinkSent;
    }

    /** `POST /reset-password/:token`; `passwordHash` is bcrypt's hash of the new password. */
    method ResetPassword(token: string, passwordHash: string, now: int) returns (r: AuthRoutes.ResetReply)
      requires Valid()
      modifies this
      ensures Valid()
      ensures Outcome(r, accounts) == AuthRoutes.ResetPassword(old(accounts), token, passwordHash, now)
    {
      var found := FindByResetToken(accounts, token, now);
      if found.None? {
        return AuthRoutes.InvalidOrExpiredToken;
      }
      var i := found.value;
      var user := accounts[i];
      user := user.(passwordHash := passwordHash);
      user := user.(resetPasswordToken := None);
      user := user.(resetPasswordExpires := None);
      accounts := accounts[i := user];
      r := AuthRoutes.PasswordReset;
    }

    /** `POST /mfa/setup` for the authenticated caller; `secret` is speakeasy's new secret. */
    method SetupMfa(caller: Caller, secret: string) returns (r: MfaRoutes.SetupReply)
      requires Valid()
      modifies this
      ensures Valid()
      ensures Outcome(r, accounts) == MfaRoutes.SetupMfa(old(accounts), caller, secret)
    {
      if caller.id >= |accounts| {
        return MfaRoutes.SetupFailed;
      }
      var user := accounts[caller.id];
      user := user.(mfaSecret := Some(secret));
      user := user.(mfaEnabled := false);
      accounts := accounts[caller.id := user];
      r := MfaRoutes.SetupStarted(secret);
    }

    /** `POST /mfa/verify` for the authenticated caller. */
    method VerifyMfa(caller: Caller, code: string, verify: (string, string) -> bool) returns (r: MfaRoutes.VerifyReply)
      requires Valid()
      modifies this
      ensures Valid()
      ensures Outcome(r, accounts) == MfaRoutes.VerifyMfa(old(accounts), caller, code, verify)
    {
      if caller.id >= |accounts| {
        return MfaRoutes.VerifyFailed;
      }
      var user := accounts[caller.id];
      if user.mfaSecret.None? || user.mfaSecret.value == "" {
        return MfaRoutes.NotSetUp;
      }
      var verified := verify(user.mfaSecret.value, code);
      if verified {
        user := user.(mfaEnabled := true);
        accounts := accounts[caller.id := user];
        r := MfaRoutes.MfaEnabled;
      } else {
        r := MfaRoutes.InvalidMfaCode;
      }
    }

    /** `POST /admin/users/:id/revoke`, behind the admin gate. */
    method Revoke(caller: Caller, target: UserId) returns (r: AdminRoutes.RevokeReply)
      requires Valid()
      modifies this
      ensures Valid()
      ensures Outcome(r, accounts) == AdminRoutes.Revoke(old(accounts), caller, target)
    {
      var decision := AdminRoutes.AdminGate(accounts, caller);
      if decision != AdminRoutes.Next {
        return AdminRoutes.RevokeRefused(decision);
      }
      if target >= |accounts| {
        return AdminRoutes.RevokeNotFound;
      }
      var user := accounts[target];
      user := user.(isRevoked := true);
      accounts := accounts[target := user];
      r := AdminRoutes.AccessRevoked;
    }
  }

  /** The end-to-end course of the lockout against one store: register, five wrong
      passwords, then the right one inside the window is refused as locked. */
  method LockoutScenario(compare: (string, string) -> bool, hash: string)
    requires compare("pw1", hash) && !compare("wrong", hash)
  {
    var store := new AccountStore();
    var reg := store.Register("a@x.com", "pw1", "", hash);
    assert reg == AuthRoutes.Registered(Token(0, Organizer), Organizer);
    var ok := store.Login("a@x.com", "pw1", 0, compare);
    assert ok == AuthRoutes.LoggedIn(Token(0, Organizer), Organizer);
    var k := 0;
    while k < 5
      invariant 0 <= k <= 5
      invariant store.Valid() && |store.accounts| == 1 && store.accounts[0].email == "a@x.com"
      invariant store.accounts[0].passwordHash == hash && !store.accounts[0].isRevoked
      invariant store.accounts[0].failedLoginAttempts == k
      invariant k < 5 ==> store.accounts[0].lockoutUntil.None?
      invariant k == 5 ==> store.accounts[0].lockoutUntil == Some(k + LockoutTimeMs)
    {
      var bad := store.Login("a@x.com", "wrong", k + 1, compare);
      assert bad == AuthRoutes.InvalidCredentials;
      k := k + 1;
    }
    var sixth := store.Login("a@x.com", "pw1", 6, compare);
    assert sixth == AuthRoutes.Locked;
  }
}
