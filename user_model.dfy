/** The account record of `src/backend/models/User.js`: its fields, the role enum, the
    schema defaults, the invariants every operation of the account store keeps, and the
    two lookups (`User.findOne({ email })`, `User.findById(id)`) the handlers use. */
module UserModel {
  import opened Common

  /** Accounts are never deleted, so an account's id is its position in the store. */
  type UserId = nat

  /** The schema's enum `['Organizer', 'Admin', 'User']`. */
  datatype Role = Organizer | Admin | User

  function RoleName(r: Role): string
  {
    match r
    case Organizer => "Organizer"
    case Admin => "Admin"
    case User => "User"
  }

  /** The schema's enum check on a role string: only the three names pass. */
  function ParseRole(s: string): (r: Option<Role>)
    ensures r.Some? <==> (s == "Organizer" || s == "Admin" || s == "User")
    ensures r.Some? ==> RoleName(r.value) == s
  {
    if s == "Organizer" then Some(Organizer)
    else if s == "Admin" then Some(Admin)
    else if s == "User" then Some(User)
    else None
  }

  /** The schema default for `role`; registration always overrides it. */
  const SchemaDefaultRole: Role := User

  datatype Account = Account(
    email: string,
    passwordHash: string,
    role: Role,
    failedLoginAttempts: nat,
    lockoutUntil: Option<int>,
    mfaSecret: Option<string>,
    mfaEnabled: bool,
    isRevoked: bool,
    resetPasswordToken: Option<string>,
    resetPasswordExpires: Option<int>)

  /** The lockout threshold and window of `src/backend/routes/auth.js`. */
  const MaxFailedAttempts: nat := 5
  const LockoutTimeMs: nat := 15 * 60 * 1000

  /** A document created from `email`, `password` and `role` only: every other field
      takes its schema default (attempts 0, MFA off, not revoked) or stays unset. */
  function NewAccount(email: string, passwordHash: string, role: Role): (a: Account)
    requires email != ""
    ensures AccountInvariant(a)
    ensures a.email == email && a.passwordHash == passwordHash && a.role == role
    ensures a.failedLoginAttempts == 0 && !a.mfaEnabled && !a.isRevoked
    ensures a.lockoutUntil.None? && a.mfaSecret.None?
    ensures a.resetPasswordToken.None? && a.resetPasswordExpires.None?
  {
    Account(email, passwordHash, role, 0, None, None, false, false, None, None)
  }

  /** `!user.mfaSecret` is false: a non-empty secret is stored. */
  predicate HasMfaSecret(a: Account)
  {
    a.mfaSecret.Some? && a.mfaSecret.value != ""
  }

  /** What holds of every stored account: the email is non-empty (required), a lockout
      is only ever set once the threshold was reached, MFA is only enabled over a stored
      secret, and the two reset-token fields are set and cleared together. */
  predicate AccountInvariant(a: Account)
  {
    && a.email != ""
    && (a.lockoutUntil.Some? ==> a.failedLoginAttempts >= MaxFailedAttempts)
    && (a.mfaEnabled ==> HasMfaSecret(a))
    && (a.resetPasswordToken.Some? <==> a.resetPasswordExpires.Some?)
  }

  /** The `unique: true` index on `email`. */
  predicate UniqueEmails(accts: seq<Account>)
  {
    forall i, j :: 0 <= i < j < |accts| ==> accts[i].email != accts[j].email
  }

  predicate StoreInvariant(accts: seq<Account>)
  {
    && UniqueEmails(accts)
    && forall i :: 0 <= i < |accts| ==> AccountInvariant(accts[i])
  }

  /** `User.findOne({ email })`. */
  function FindByEmail(accts: seq<Account>, email: string): (r: Option<UserId>)
    ensures r.None? <==> forall i :: 0 <= i < |accts| ==> accts[i].email != email
    ensures r.Some? ==> r.value < |accts| && accts[r.value].email == email
    ensures r.Some? && UniqueEmails(accts) ==>
              forall i :: 0 <= i < |accts| && accts[i].email == email ==> i == r.value
  {
    FirstIndex(accts, (a: Account) => a.email == email)
  }

  /** The condition of `User.findOne({ resetPasswordToken: token,
      resetPasswordExpires: { $gt: now } })`. */
  predicate HoldsLiveResetToken(a: Account, token: string, now: int)
  {
    a.resetPasswordToken == Some(token) && a.resetPasswordExpires.Some? && a.resetPasswordExpires.value > now
  }

  function FindByResetToken(accts: seq<Account>, token: string, now: int): (r: Option<UserId>)
    ensures r.None? <==> forall i :: 0 <= i < |accts| ==> !HoldsLiveResetToken(accts[i], token, now)
    ensures r.Some? ==> r.value < |accts| && HoldsLiveResetToken(accts[r.value], token, now)
  {
    FirstIndex(accts, (a: Account) => HoldsLiveResetToken(a, token, now))
  }
}
