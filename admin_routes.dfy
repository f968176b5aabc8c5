/** The admin role gate of `src/backend/middleware/admin.js` and the three routes of
    `src/backend/routes/admin.js` that run behind it. Each route is mounted as
    `[auth, admin]`: the authentication middleware (not part of this model) supplies the
    `Caller`, the gate decides on the role STORED for that caller, and only then does the
    route body run. */
module AdminRoutes {
  import opened Common
  import opened UserModel
  import opened Session
  import opened EventModel
  import opened AuthRoutes

  datatype GateDecision =
    | Next            // next()
    | AccessDenied    // 403 'Access denied. Admin role required.'
    | GateFailed      // 500 'Server Error': no account for the caller (`user.role` throws)
  {
    function Status(): int
    {
      match this
      case Next => 200
      case AccessDenied => 403
      case GateFailed => 500
    }
  }

  /** The gate looks the caller up and compares the stored role; it writes nothing. */
  function AdminGate(accts: seq<Account>, caller: Caller): (d: GateDecision)
    ensures d == Next <==> caller.id < |accts| && accts[caller.id].role == Admin
    ensures d == AccessDenied <==> caller.id < |accts| && accts[caller.id].role != Admin
    ensures d == GateFailed <==> caller.id >= |accts|
  {
    if caller.id >= |accts| then GateFailed
    else if accts[caller.id].role != Admin then AccessDenied
    else Next
  }

  /** The role carried by the token plays no part: a token with no role, or with a stale
      one, is judged by the account's current role. */
  lemma AdminGateIgnoresTokenRole(accts: seq<Account>, id: UserId, r1: Option<Role>, r2: Option<Role>)
    ensures AdminGate(accts, Caller(id, r1)) == AdminGate(accts, Caller(id, r2))
  {
  }

  /** A route's reply: refused by the gate, or the body's own reply. */
  datatype AdminReply<T> = Refused(decision: GateDecision) | Served(body: T)

  // ---------------------------------------------------------------- GET /users

  /** An account as `User.find().select('-password')` returns it. */
  datatype PublicAccount = PublicAccount(
    id: UserId,
    email: string,
    role: Role,
    failedLoginAttempts: nat,
    lockoutUntil: Option<int>,
    mfaSecret: Option<string>,
    mfaEnabled: bool,
    isRevoked: bool,
    resetPasswordToken: Option<string>,
    resetPasswordExpires: Option<int>)

  function WithoutPassword(id: UserId, a: Account): PublicAccount
  {
    PublicAccount(id, a.email, a.role, a.failedLoginAttempts, a.lockoutUntil, a.mfaSecret, a.mfaEnabled,
                  a.isRevoked, a.resetPasswordToken, a.resetPasswordExpires)
  }

  /** The inverse of the projection, given the hash it dropped. */
  function WithPassword(p: PublicAccount, passwordHash: string): Account
  {
    Account(p.email, passwordHash, p.role, p.failedLoginAttempts, p.lockoutUntil, p.mfaSecret, p.mfaEnabled,
            p.isRevoked, p.resetPasswordToken, p.resetPasswordExpires)
  }

  /** The projection drops the password hash and nothing else. */
  lemma ProjectionLosesOnlyPassword(id: UserId, a: Account)
    ensures WithPassword(WithoutPassword(id, a), a.passwordHash) == a
    ensures WithoutPassword(id, a).id == id
  {
  }

  function ListUsers(accts: seq<Account>, caller: Caller): (r: AdminReply<seq<PublicAccount>>)
    ensures r.Served? <==> AdminGate(accts, caller) == Next
    ensures r.Refused? ==> r.decision == AdminGate(accts, caller)
    ensures r.Served? ==>
              && |r.body| == |accts|
              && forall i :: 0 <= i < |accts| ==>
                   r.body[i].id == i && WithPassword(r.body[i], accts[i].passwordHash) == accts[i]
  {
    var d := AdminGate(accts, caller);
    if d != Next then Refused(d)
    else Served(seq(|accts|, i requires 0 <= i < |accts| => WithoutPassword(i, accts[i])))
  }

  // ---------------------------------------------------------------- GET /events

  /** An event with `.populate('organizer', 'email')`: the organizer's email, or nothing
      when the event has no organizer or the account does not exist. */
  datatype ListedEvent = ListedEvent(event: Event, organizerEmail: Option<string>)

  function OrganizerEmail(accts: seq<Account>, e: Event): (r: Option<string>)
    ensures r.Some? <==> e.organizer.Some? && e.organizer.value < |accts|
    ensures r.Some? ==> r.value == accts[e.organizer.value].email
  {
    match e.organizer
    case None => None
    case Some(u) => if u < |accts| then Some(accts[u].email) else None
  }

  function ListEvents(accts: seq<Account>, events: seq<Event>, caller: Caller): (r: AdminReply<seq<ListedEvent>>)
    ensures r.Served? <==> AdminGate(accts, caller) == Next
    ensures r.Refused? ==> r.decision == AdminGate(accts, caller)
    ensures r.Served? ==>
              && |r.body| == |events|
              && multiset(seq(|r.body|, i requires 0 <= i < |r.body| => r.body[i].event)) == multiset(events)
              && (forall i, j :: 0 <= i < j < |r.body| ==> r.body[i].event.startDate >= r.body[j].event.startDate)
              && (forall i :: 0 <= i < |r.body| ==> r.body[i].organizerEmail == OrganizerEmail(accts, r.body[i].event))
  {
    var d := AdminGate(accts, caller);
    if d != Next then Refused(d)
    else
      var sorted := ByNewest(events);
      var body := seq(|sorted|, i requires 0 <= i < |sorted| => ListedEvent(sorted[i], OrganizerEmail(accts, sorted[i])));
      assert seq(|body|, i requires 0 <= i < |body| => body[i].event) == sorted;
      Served(body)
  }

  // ---------------------------------------------------------------- POST /users/:id/revoke

  datatype RevokeReply =
    | RevokeRefused(decision: GateDecision)
    | RevokeNotFound     // 404 'User not found'
    | AccessRevoked      // 200 'User access revoked'
  {
    function Status(): int
    {
      match this
      case RevokeRefused(d) => d.Status()
      case RevokeNotFound => 404
      case AccessRevoked => 200
    }
  }

  /** Sets the target's `isRevoked`; the target's own role is not consulted, so an admin
      can revoke an admin (or themself). */
  function Revoke(accts: seq<Account>, caller: Caller, target: UserId): (o: Outcome<RevokeReply>)
    ensures AdminGate(accts, caller) != Next ==> o == Outcome(RevokeRefused(AdminGate(accts, caller)), accts)
    ensures AdminGate(accts, caller) == Next && target >= |accts| ==> o == Outcome(RevokeNotFound, accts)
    ensures o.reply == AccessRevoked <==> AdminGate(accts, caller) == Next && target < |accts|
    ensures o.reply == AccessRevoked ==> o.accounts == accts[target := accts[target].(isRevoked := true)]
    ensures StoreInvariant(accts) ==> StoreInvariant(o.accounts)
  {
    var d := AdminGate(accts, caller);
    if d != Next then Outcome(RevokeRefused(d), accts)
    else if target >= |accts| then Outcome(RevokeNotFound, accts)
    else Outcome(AccessRevoked, accts[target := accts[target].(isRevoked := true)])
  }

  /** Revoking twice is revoking once. */
  lemma RevokeIdempotent(accts: seq<Account>, caller: Caller, target: UserId)
    ensures var once := Revoke(accts, caller, target);
            Revoke(once.accounts, caller, target).accounts == once.accounts
  {
    var once := Revoke(accts, caller, target);
    if once.reply == AccessRevoked {
      assert AdminGate(once.accounts, caller) == AdminGate(accts, caller);
      assert once.accounts[target := once.accounts[target].(isRevoked := true)] == once.accounts;
    }
  }

  /** Once revoked, an account's correct password logs nobody in: login answers 403
      revoked, and the account's counter and lockout stay as they were. */
  lemma RevokeThenLogin(accts: seq<Account>, caller: Caller, target: UserId, password: string, now: int,
                        compare: (string, string) -> bool)
    requires StoreInvariant(accts)
    requires AdminGate(accts, caller) == Next && target < |accts|
    ensures var revoked := Revoke(accts, caller, target).accounts;
            Login(revoked, accts[target].email, password, now, compare) == Outcome(Revoked, revoked)
  {
    var revoked := Revoke(accts, caller, target).accounts;
    assert revoked[target].email == accts[target].email;
    assert revoked[target := revoked[target]] == revoked;
  }
}
