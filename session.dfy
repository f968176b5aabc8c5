/** What the handlers share besides the account record: the bearer credential they issue,
    the identity the authentication middleware attaches to a request, and the pair of a
    reply and the account collection a handler leaves behind. */
module Session {
  import opened Common
  import opened UserModel

  /** The payload `{ user: { id, role } }` that the handlers sign with `expiresIn: '5h'`.
      Signing and the expiry stamp are not modelled; the payload is the token. */
  datatype Token = Token(id: UserId, role: Role)

  /** `req.user` as set by the authentication middleware (`src/backend/middleware/auth.js`,
      which is not part of this model) from a verified token: the id and, when the token
      carried one, the role it was issued with. */
  datatype Caller = Caller(id: UserId, tokenRole: Option<Role>)

  /** A handler's reply together with the account collection after it ran. */
  datatype Outcome<R> = Outcome(reply: R, accounts: seq<Account>)
}
