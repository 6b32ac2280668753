/**
 * The parts of the framework's account system that the blog relies on:
 * a user record with a unique username, and the identity of the requester.
 */
module Auth {
  type UserId = nat

  /**
   * An account. Only the fields the blog reads or the tests change are kept;
   * `firstName` stands for every field a later save may change.
   */
  datatype User = User(username: string, firstName: string)

  /** Who sent the request: nobody signed in, or the account with this key. */
  datatype Actor = Anonymous | Authenticated(id: UserId)
}
