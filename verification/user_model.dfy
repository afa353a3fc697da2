/** The User document as the back end reads and writes it.  The Mongoose schema
    file is not part of this model; the fields below are the ones the modelled
    code touches. */
module UserModel {
  import opened Common

  /** Database identifiers (Mongo ObjectIds) are modelled as naturals. */
  type UserId = nat

  /** The role a new account receives when the schema default applies. */
  const DefaultRole: string := "user"

  datatype User = User(
    id: UserId,
    username: string,
    email: string,
    password: Option<string>,     // hashed password; None for OAuth-only accounts
    firstName: string,
    lastName: string,
    profilePic: Option<string>,   // None: the schema default picture
    role: string,                 // "user", "contributor", "moderator" or "admin"
    googleId: Option<string>,
    accessToken: Option<string>)

  /** `select('-password')`: the same record without its password field. */
  function WithoutPassword(u: User): (r: User)
    ensures r.password.None?
    ensures r.(password := u.password) == u
  {
    u.(password := None)
  }
}
