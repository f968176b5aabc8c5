/** The MFA enrolment state machine of `src/backend/routes/mfa.js`. Both handlers run
    behind the authentication middleware and act on the account of `req.user.id` only.
    speakeasy's secret generation is a parameter (`secret`) and its TOTP check a function
    parameter (`verify(secret, code)`); the QR image is not modelled, the reply carries
    the secret it encodes. */
module MfaRoutes {
  import opened Common
  import opened UserModel
  import opened Session
  import opened AuthRoutes

  datatype SetupReply =
    | SetupStarted(secret: string)  // 200 { qrCodeUrl } for the otpauth URL of `secret`
    | SetupFailed                   // 500: there is no account for the caller
  {
    function Status(): int
    {
      match this
      case SetupStarted(_) => 200
      case SetupFailed => 500
    }
  }

  /** `POST /setup`: store a fresh secret and drop back to "pending", even when MFA was
      already enabled. */
  function SetupMfa(accts: seq<Account>, caller: Caller, secret: string): (o: Outcome<SetupReply>)
    ensures caller.id >= |accts| ==> o == Outcome(SetupFailed, accts)
    ensures caller.id < |accts| ==>
              && o.reply == SetupStarted(secret)
              && o.accounts == accts[caller.id := accts[caller.id].(mfaSecret := Some(secret), mfaEnabled := false)]
    ensures caller.id < |accts| ==> !o.accounts[caller.id].mfaEnabled
    ensures StoreInvariant(accts) ==> StoreInvariant(o.accounts)
  {
    if caller.id >= |accts| then Outcome(SetupFailed, accts)
    else
      var a := accts[caller.id].(mfaSecret := Some(secret), mfaEnabled := false);
      Outcome(SetupStarted(secret), accts[caller.id := a])
  }

  datatype VerifyReply =
    | MfaEnabled        // 200 'MFA enabled successfully'
    | NotSetUp          // 400 'MFA not set up. Please set up first.'
    | InvalidMfaCode    // 400 'Invalid token, verification failed'
    | VerifyFailed      // 500: there is no account for the caller
  {
    function Status(): int
    {
      match this
      case MfaEnabled => 200
      case NotSetUp => 400
      case InvalidMfaCode => 400
      case VerifyFailed => 500
    }
  }

  /** `POST /verify`: enable MFA when the code matches the stored secret. */
  function VerifyMfa(accts: seq<Account>, caller: Caller, code: string, verify: (string, string) -> bool)
    : (o: Outcome<VerifyReply>)
    ensures caller.id >= |accts| ==> o == Outcome(VerifyFailed, accts)
    ensures o.reply == NotSetUp <==> caller.id < |accts| && !HasMfaSecret(accts[caller.id])
    ensures o.reply == MfaEnabled <==>
              caller.id < |accts| && HasMfaSecret(accts[caller.id]) && verify(accts[caller.id].mfaSecret.value, code)
    ensures o.reply == MfaEnabled ==> o.accounts == accts[caller.id := accts[caller.id].(mfaEnabled := true)]
    ensures o.reply != MfaEnabled ==> o.accounts == accts
    ensures StoreInvariant(accts) ==> StoreInvariant(o.accounts)
  {
    if caller.id >= |accts| then Outcome(VerifyFailed, accts)
    else
      var a := accts[caller.id];
      if !HasMfaSecret(a) then Outcome(NotSetUp, accts)
      else if verify(a.mfaSecret.value, code) then Outcome(MfaEnabled, accts[caller.id := a.(mfaEnabled := true)])
      else Outcome(InvalidMfaCode, accts)
  }

  /** The store after verifying each of `codes` in turn. */
  function VerifyEach(accts: seq<Account>, caller: Caller, codes: seq<string>, verify: (string, string) -> bool)
    : seq<Account>
    decreases |codes|
  {
    if |codes| == 0 then accts
    else VerifyEach(VerifyMfa(accts, caller, codes[0], verify).accounts, caller, codes[1..], verify)
  }

  /** Rejected codes never change anything, however many are tried: there is no attempt
      counter and no lockout on MFA verification. */
  lemma {:induction false} RejectedCodesChangeNothing(accts: seq<Account>, caller: Caller, codes: seq<string>,
                                                      verify: (string, string) -> bool)
    requires caller.id < |accts| && HasMfaSecret(accts[caller.id])
    requires forall k :: 0 <= k < |codes| ==> !verify(accts[caller.id].mfaSecret.value, codes[k])
    ensures VerifyEach(accts, caller, codes, verify) == accts
    decreases |codes|
  {
    if |codes| > 0 {
      assert VerifyMfa(accts, caller, codes[0], verify).accounts == accts;
      RejectedCodesChangeNothing(accts, caller, codes[1..], verify);
    }
  }

  /** The enrolment round: after setup with `secret` and a verify whose code matches it,
      MFA is enabled over `secret`, and a correct password at login then asks for the
      second factor instead of issuing a token. */
  lemma SetupVerifyThenLogin(accts: seq<Account>, caller: Caller, secret: string, code: string,
                             verify: (string, string) -> bool, password: string, now: int,
                             compare: (string, string) -> bool)
    requires StoreInvariant(accts) && caller.id < |accts|
    requires secret != "" && verify(secret, code)
    requires !accts[caller.id].isRevoked && !IsLocked(accts[caller.id], now)
    requires compare(password, accts[caller.id].passwordHash)
    ensures var s := SetupMfa(accts, caller, secret).accounts;
            var v := VerifyMfa(s, caller, code, verify);
            && v.reply == MfaEnabled
            && v.accounts[caller.id].mfaEnabled && v.accounts[caller.id].mfaSecret == Some(secret)
            && Login(v.accounts, accts[caller.id].email, password, now, compare).reply == MfaRequired(caller.id)
  {
    var s := SetupMfa(accts, caller, secret).accounts;
    var v := VerifyMfa(s, caller, code, verify);
    assert StoreInvariant(v.accounts);
    assert v.accounts[caller.id].email == accts[caller.id].email;
  }
}
