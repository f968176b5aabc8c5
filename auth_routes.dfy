/** The rules of `src/backend/routes/auth.js`: registration, the ordered login gate with
    its failed-attempt counter and lockout, the second login step for MFA accounts, and
    the password-reset token. Each handler is a function from the account collection
    (and the request) to its reply and the collection it saves; `Accounts.AccountStore`
    performs the same steps as in-place field updates. bcrypt, speakeasy, JWT signing and
    `crypto.randomBytes` are parameters: a computed hash, a compare function, a TOTP check,
    the payload of the token, and the random reset token. */
module AuthRoutes {
  import opened Common
  import opened UserModel
  import opened Session

  /** The reset-token lifetime, one hour. */
  const ResetTokenTtlMs: nat := 3600000

  // ---------------------------------------------------------------- POST /register

  datatype RegisterReply =
    | Registered(token: Token, role: Role)  // 201 { token, role }
    | MissingFields                         // 400 'Please enter all fields'
    | UserExists                            // 400 'User already exists'
    | RegisterFailed                        // 500 'Server error' (the schema refused the role)
  {
    function Status(): int
    {
      match this
      case Registered(_, _) => 201
      case MissingFields => 400
      case UserExists => 400
      case RegisterFailed => 500
    }
  }

  /** `role || 'Organizer'`; an absent role is the empty string. */
  function RequestedRole(role: string): string
  {
    if role == "" then "Organizer" else role
  }

  function Register(accts: seq<Account>, email: string, password: string, role: string, passwordHash: string)
    : (o: Outcome<RegisterReply>)
    ensures email == "" || password == "" ==> o == Outcome(MissingFields, accts)
    ensures email != "" && password != "" && FindByEmail(accts, email).Some? ==> o == Outcome(UserExists, accts)
    ensures o.reply.Registered? <==>
              email != "" && password != "" && FindByEmail(accts, email).None? && ParseRole(RequestedRole(role)).Some?
    ensures o.reply.Registered? ==>
              && o.accounts == accts + [NewAccount(email, passwordHash, o.reply.role)]
              && o.reply.token == Token(|accts|, o.reply.role)
              && (role == "" ==> o.reply.role == Organizer)
              && (role != "" ==> RoleName(o.reply.role) == role)
    ensures email != "" && password != "" && FindByEmail(accts, email).None? && ParseRole(RequestedRole(role)).None? ==>
              o == Outcome(RegisterFailed, accts)
    ensures !o.reply.Registered? ==> o.accounts == accts
    ensures StoreInvariant(accts) ==> StoreInvariant(o.accounts)
  {
    if email == "" || password == "" then Outcome(MissingFields, accts)
    else if FindByEmail(accts, email).Some? then Outcome(UserExists, accts)
    else match ParseRole(RequestedRole(role))
      case None => Outcome(RegisterFailed, accts)
      case Some(r) =>
        var accts' := accts + [NewAccount(email, passwordHash, r)];
        assert forall i :: 0 <= i < |accts| ==> accts'[i] == accts[i];
        Outcome(Registered(Token(|accts|, r), r), accts')
  }

  // ---------------------------------------------------------------- POST /login

  datatype LoginReply =
    | InvalidCredentials                      // 400 'Invalid credentials'
    | Revoked                                 // 403 'Your account access has been revoked.'
    | Locked                                  // 403 'Account locked. Try again later.'
    | MfaRequired(userId: UserId)             // 200 { mfaRequired: true, userId }
    | LoggedIn(token: Token, role: Role)      // 200 { token, role }
  {
    function Status(): int
    {
      match this
      case InvalidCredentials => 400
      case Revoked => 403
      case Locked => 403
      case MfaRequired(_) => 200
      case LoggedIn(_, _) => 200
    }
  }

  /** `user.lockoutUntil && user.lockoutUntil > Date.now()`. */
  predicate IsLocked(a: Account, now: int)
  {
    a.lockoutUntil.Some? && a.lockoutUntil.value > now
  }

  function AfterWrongPassword(a: Account, now: int): Account
  {
    var attempts := a.failedLoginAttempts + 1;
    a.(failedLoginAttempts := attempts,
       lockoutUntil := if attempts >= MaxFailedAttempts then Some(now + LockoutTimeMs) else a.lockoutUntil)
  }

  function AfterCorrectPassword(a: Account): Account
  {
    a.(failedLoginAttempts := 0, lockoutUntil := None)
  }

  datatype LoginStep = LoginStep(reply: LoginReply, account: Account)

  /** The login gate on the account found for the email, where `isMatch` is what
      `bcrypt.compare` says of the submitted password. */
  function AttemptLogin(a: Account, id: UserId, isMatch: bool, now: int): (s: LoginStep)
    // the order of the checks: revoked, then locked, then the password
    ensures s.reply == Revoked <==> a.isRevoked
    ensures s.reply == Locked <==> !a.isRevoked && IsLocked(a, now)
    ensures s.reply == InvalidCredentials <==> !a.isRevoked && !IsLocked(a, now) && !isMatch
    // a refused account is neither compared nor written
    ensures s.reply.Revoked? || s.reply.Locked? ==> s.account == a
    // a wrong password counts once and locks exactly when the threshold is reached
    ensures s.reply.InvalidCredentials? ==>
              && s.account.failedLoginAttempts == a.failedLoginAttempts + 1
              && (s.account.failedLoginAttempts >= MaxFailedAttempts ==> s.account.lockoutUntil == Some(now + LockoutTimeMs))
              && (s.account.failedLoginAttempts < MaxFailedAttempts ==> s.account.lockoutUntil == a.lockoutUntil)
    // a correct password clears the counter and the lockout before the MFA branch
    ensures s.reply.MfaRequired? || s.reply.LoggedIn? ==>
              s.account.failedLoginAttempts == 0 && s.account.lockoutUntil.None?
    ensures s.reply.MfaRequired? <==> !a.isRevoked && !IsLocked(a, now) && isMatch && a.mfaEnabled
    ensures s.reply.MfaRequired? ==> s.reply.userId == id
    ensures s.reply.LoggedIn? ==> s.reply.token == Token(id, a.role) && s.reply.role == a.role
    // only the counter and the lockout ever change
    ensures s.account == a.(failedLoginAttempts := s.account.failedLoginAttempts, lockoutUntil := s.account.lockoutUntil)
    ensures AccountInvariant(a) ==> AccountInvariant(s.account)
  {
    if a.isRevoked then LoginStep(Revoked, a)
    else if IsLocked(a, now) then LoginStep(Locked, a)
    else if !isMatch then LoginStep(InvalidCredentials, AfterWrongPassword(a, now))
    else
      var b := AfterCorrectPassword(a);
      if b.mfaEnabled then LoginStep(MfaRequired(id), b)
      else LoginStep(LoggedIn(Token(id, b.role), b.role), b)
  }

  function Login(accts: seq<Account>, email: string, password: string, now: int, compare: (string, string) -> bool)
    : (o: Outcome<LoginReply>)
    ensures FindByEmail(accts, email).None? ==> o == Outcome(InvalidCredentials, accts)
    ensures FindByEmail(accts, email).Some? ==>
              var i := FindByEmail(accts, email).value;
              var s := AttemptLogin(accts[i], i, compare(password, accts[i].passwordHash), now);
              o.reply == s.reply && o.accounts == accts[i := s.account]
    ensures |o.accounts| == |accts|
    ensures StoreInvariant(accts) ==> StoreInvariant(o.accounts)
  {
    match FindByEmail(accts, email)
    case None => Outcome(InvalidCredentials, accts)
    case Some(i) =>
      var s := AttemptLogin(accts[i], i, compare(password, accts[i].passwordHash), now);
      Outcome(s.reply, accts[i := s.account])
  }

  /** A refused account gives the same reply whatever the password: the compare result
      does not matter, and the account is not written. */
  lemma RefusedIgnoresPassword(a: Account, id: UserId, now: int)
    requires a.isRevoked || IsLocked(a, now)
    ensures AttemptLogin(a, id, true, now) == AttemptLogin(a, id, false, now)
    ensures AttemptLogin(a, id, true, now).account == a
  {
  }

  /** The counter is not reset when a lockout lapses: one more wrong password after the
      window has passed locks the account again at once. */
  lemma RelockAfterLapse(a: Account, id: UserId, now: int)
    requires AccountInvariant(a) && !a.isRevoked
    requires a.lockoutUntil.Some? && !IsLocked(a, now)
    ensures var s := AttemptLogin(a, id, false, now);
            s.reply == InvalidCredentials && IsLocked(s.account, now)
            && s.account.lockoutUntil == Some(now + LockoutTimeMs)
  {
  }

  /** The account after a wrong password at each of `times`, in order. */
  function WrongPasswordAt(a: Account, id: UserId, times: seq<int>): Account
    decreases |times|
  {
    if |times| == 0 then a
    else WrongPasswordAt(AttemptLogin(a, id, false, times[0]).account, id, times[1..])
  }

  /** Below the threshold, wrong passwords only count: an account with no failures and
      no lockout has `k` failures and still no lockout after `k < 5` of them. */
  lemma {:induction false} FailuresBelowThreshold(a: Account, id: UserId, times: seq<int>)
    requires !a.isRevoked && a.lockoutUntil.None?
    requires a.failedLoginAttempts + |times| < MaxFailedAttempts
    decreases |times|
    ensures var b := WrongPasswordAt(a, id, times);
            b.failedLoginAttempts == a.failedLoginAttempts + |times| && b.lockoutUntil.None? && !b.isRevoked
  {
    if |times| > 0 {
      FailuresBelowThreshold(AttemptLogin(a, id, false, times[0]).account, id, times[1..]);
    }
  }

  /** Five consecutive wrong passwords from a clean account lock it for fifteen minutes
      from the fifth attempt: a sixth attempt inside that window is refused as locked,
      even with the correct password, and does not touch the account. */
  lemma {:induction false} FiveFailuresLock(a: Account, id: UserId, times: seq<int>, later: int)
    requires !a.isRevoked && a.failedLoginAttempts == 0 && a.lockoutUntil.None?
    requires |times| == MaxFailedAttempts
    requires later < times[|times| - 1] + LockoutTimeMs
    ensures var b := WrongPasswordAt(a, id, times);
            && b.failedLoginAttempts == MaxFailedAttempts
            && b.lockoutUntil == Some(times[|times| - 1] + LockoutTimeMs)
            && AttemptLogin(b, id, true, later) == LoginStep(Locked, b)
  {
    var first := times[..|times| - 1];
    FailuresBelowThreshold(a, id, first);
    WrongPasswordSplit(a, id, first, [times[|times| - 1]]);
    assert first + [times[|times| - 1]] == times;
  }

  lemma {:induction false} WrongPasswordSplit(a: Account, id: UserId, s: seq<int>, t: seq<int>)
    ensures WrongPasswordAt(a, id, s + t) == WrongPasswordAt(WrongPasswordAt(a, id, s), id, t)
    decreases |s|
  {
    if |s| == 0 {
      assert s + t == t;
    } else {
      assert (s + t)[1..] == s[1..] + t;
      WrongPasswordSplit(AttemptLogin(a, id, false, s[0]).account, id, s[1..], t);
    }
  }

  /** Registering and then logging in with the same password (which the hash matches)
      gives a token for the new account with the stored role, `Organizer` by default. */
  lemma RegisterThenLogin(accts: seq<Account>, email: string, password: string, passwordHash: string,
                          now: int, compare: (string, string) -> bool)
    requires StoreInvariant(accts)
    requires email != "" && password != "" && FindByEmail(accts, email).None?
    requires compare(password, passwordHash)
    ensures var reg := Register(accts, email, password, "", passwordHash);
            && reg.reply == Registered(Token(|accts|, Organizer), Organizer)
            && Login(reg.accounts, email, password, now, compare).reply == LoggedIn(Token(|accts|, Organizer), Organizer)
  {
    var reg := Register(accts, email, password, "", passwordHash);
    assert reg.accounts[|accts|].email == email;
    assert StoreInvariant(reg.accounts);
  }

  // ---------------------------------------------------------------- POST /login/2fa

  datatype TwoFactorReply =
    | UserNotFound                              // 404 'User not found'
    | InvalidCode                               // 400 'Invalid token, login failed'
    | TwoFactorLoggedIn(token: Token, role: Role)  // 200 { token, role }
    | TwoFactorFailed                           // 500: speakeasy throws on an absent secret
  {
    function Status(): int
    {
      match this
      case UserNotFound => 404
      case InvalidCode => 400
      case TwoFactorLoggedIn(_, _) => 200
      case TwoFactorFailed => 500
    }
  }

  /** The second login step reads the account and writes nothing. `verify(secret, code)`
      is speakeasy's TOTP check with a window of one step at the current time. */
  function LoginTwoFactor(accts: seq<Account>, userId: UserId, code: string, verify: (string, string) -> bool)
    : (r: TwoFactorReply)
    ensures r == UserNotFound <==> userId >= |accts|
    ensures r == TwoFactorFailed <==> userId < |accts| && accts[userId].mfaSecret.None?
    ensures r.TwoFactorLoggedIn? <==>
              userId < |accts| && accts[userId].mfaSecret.Some? && verify(accts[userId].mfaSecret.value, code)
    ensures r.TwoFactorLoggedIn? ==>
              r.token == Token(userId, accts[userId].role) && r.role == accts[userId].role
  {
    if userId >= |accts| then UserNotFound
    else
      var a := accts[userId];
      match a.mfaSecret
      case None => TwoFactorFailed
      case Some(secret) =>
        if verify(secret, code) then TwoFactorLoggedIn(Token(userId, a.role), a.role) else InvalidCode
  }

  /** The second step consults neither the revocation flag, nor the lockout, nor the
      counter, nor whether MFA is enabled. */
  lemma TwoFactorIgnoresAccountState(accts: seq<Account>, userId: UserId, code: string,
                                     verify: (string, string) -> bool,
                                     revoked: bool, attempts: nat, lockout: Option<int>, enabled: bool)
    requires userId < |accts|
    ensures var a := accts[userId];
            var b := a.(isRevoked := revoked, failedLoginAttempts := attempts, lockoutUntil := lockout, mfaEnabled := enabled);
            LoginTwoFactor(accts[userId := b], userId, code, verify) == LoginTwoFactor(accts, userId, code, verify)
  {
  }

  // ---------------------------------------------------------------- POST /forgot-password

  const ResetLinkSent: string := "If an account with this email exists, a reset link has been sent."

  /** `token` is the 40 hex digits of `crypto.randomBytes(20)`. */
  function ForgotPassword(accts: seq<Account>, email: string, token: string, now: int): (o: Outcome<string>)
    ensures o.reply == ResetLinkSent
    ensures FindByEmail(accts, email).None? ==> o.accounts == accts
    ensures FindByEmail(accts, email).Some? ==>
              var i := FindByEmail(accts, email).value;
              o.accounts == accts[i := accts[i].(resetPasswordToken := Some(token),
                                                 resetPasswordExpires := Some(now + ResetTokenTtlMs))]
    ensures StoreInvariant(accts) ==> StoreInvariant(o.accounts)
  {
    match FindByEmail(accts, email)
    case None => Outcome(ResetLinkSent, accts)
    case Some(i) =>
      var a := accts[i].(resetPasswordToken := Some(token), resetPasswordExpires := Some(now + ResetTokenTtlMs));
      Outcome(ResetLinkSent, accts[i := a])
  }

  // ---------------------------------------------------------------- POST /reset-password/:token

  datatype ResetReply =
    | PasswordReset           // 200 'Password has been reset successfully.'
    | InvalidOrExpiredToken   // 400 'Password reset token is invalid or has expired.'
  {
    function Status(): int
    {
      match this
      case PasswordReset => 200
      case InvalidOrExpiredToken => 400
    }
  }

  function ResetPassword(accts: seq<Account>, token: string, passwordHash: string, now: int): (o: Outcome<ResetReply>)
    ensures o.reply == PasswordReset <==> exists i :: 0 <= i < |accts| && HoldsLiveResetToken(accts[i], token, now)
    ensures o.reply == InvalidOrExpiredToken ==> o.accounts == accts
    ensures o.reply == PasswordReset ==>
              var i := FindByResetToken(accts, token, now).value;
              o.accounts == accts[i := accts[i].(passwordHash := passwordHash,
                                                 resetPasswordToken := None, resetPasswordExpires := None)]
    ensures StoreInvariant(accts) ==> StoreInvariant(o.accounts)
  {
    match FindByResetToken(accts, token, now)
    case None => Outcome(InvalidOrExpiredToken, accts)
    case Some(i) =>
      var a := accts[i].(passwordHash := passwordHash, resetPasswordToken := None, resetPasswordExpires := None);
      Outcome(PasswordReset, accts[i := a])
  }

  /** A reset token is single-use: once consumed, the same token is refused, at any time,
      unless another account happens to hold the same token. */
  lemma ResetTokenSingleUse(accts: seq<Account>, token: string, h1: string, h2: string, now: int, later: int)
    requires exists i :: 0 <= i < |accts| && HoldsLiveResetToken(accts[i], token, now)
    requires forall i, j :: 0 <= i < j < |accts| ==>
               !(accts[i].resetPasswordToken == Some(token) && accts[j].resetPasswordToken == Some(token))
    ensures var first := ResetPassword(accts, token, h1, now);
            first.reply == PasswordReset && ResetPassword(first.accounts, token, h2, later).reply == InvalidOrExpiredToken
  {
    var i := FindByResetToken(accts, token, now).value;
    var first := ResetPassword(accts, token, h1, now);
    forall j | 0 <= j < |first.accounts|
      ensures !HoldsLiveResetToken(first.accounts[j], token, later)
    {
      if j != i {
        assert accts[j].resetPasswordToken != Some(token) by {
          if j < i {} else {}
        }
      }
    }
  }

  /** A request for a reset and its use within the hour succeed and set the new password
      on the account of that email, provided no other account holds the same token. */
  lemma ForgotThenReset(accts: seq<Account>, email: string, token: string, passwordHash: string, now: int, later: int)
    requires FindByEmail(accts, email).Some?
    requires now <= later < now + ResetTokenTtlMs
    requires forall j :: 0 <= j < |accts| ==> accts[j].resetPasswordToken != Some(token)
    ensures var i := FindByEmail(accts, email).value;
            var reset := ResetPassword(ForgotPassword(accts, email, token, now).accounts, token, passwordHash, later);
            && reset.reply == PasswordReset
            && reset.accounts[i].passwordHash == passwordHash
            && reset.accounts[i].resetPasswordToken.None?
  {
    var i := FindByEmail(accts, email).value;
    var forgot := ForgotPassword(accts, email, token, now);
    assert HoldsLiveResetToken(forgot.accounts[i], token, later);
    assert forall j :: 0 <= j < |forgot.accounts| && j != i ==> !HoldsLiveResetToken(forgot.accounts[j], token, later);
  }

  /** A reset token stops working an hour after it was issued. */
  lemma ResetTokenExpires(accts: seq<Account>, email: string, token: string, passwordHash: string, now: int, later: int)
    requires FindByEmail(accts, email).Some?
    requires later >= now + ResetTokenTtlMs
    requires forall j :: 0 <= j < |accts| ==> accts[j].resetPasswordToken != Some(token)
    ensures var forgot := ForgotPassword(accts, email, token, now);
            ResetPassword(forgot.accounts, token, passwordHash, later) == Outcome(InvalidOrExpiredToken, forgot.accounts)
  {
    var i := FindByEmail(accts, email).value;
    var forgot := ForgotPassword(accts, email, token, now);
    assert forall j :: 0 <= j < |forgot.accounts| ==> !HoldsLiveResetToken(forgot.accounts[j], token, later);
  }
}
