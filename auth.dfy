/** The signed-in user as the identity provider reports it, and how a
    sign-in or sign-up request settles. */
module Auth {
  import opened Wrappers

  /** user.uid and user.email (the email may be null). */
  datatype AuthUser = AuthUser(uid: string, email: Option<string>)

  /** The awaited login(email, password) or signup(email, password): it
      resolves with a user or rejects with an error carrying err.code and
      err.message, either of which may be missing. */
  datatype AuthOutcome =
    | Authenticated(user: AuthUser)
    | Rejected(code: Option<string>, message: Option<string>)
}
