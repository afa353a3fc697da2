/** What the front end's `login` and `register` helpers hand back to the
    pages.  The helpers post to the API, store the reply in localStorage and
    swallow any error; the HTTP exchange itself is an oracle. */
module UserApi {
  import opened Common

  /** The signed-in user the pages keep in the global context. */
  datatype UserInfo = UserInfo(id: string, email: string, role: string)

  /** A helper's result: `undefined` when the request failed (the helper
      caught and logged the error), or the response, whose `data` may be
      falsy (None). */
  datatype Reply = Undefined | Response(data: Option<UserInfo>)

  /** The arguments of `login(email, password)`. */
  datatype Credentials = Credentials(email: string, password: string)

  /** The arguments of `register(username, firstName, lastName, email, password)`. */
  datatype Registration = Registration(
    username: string,
    firstName: string,
    lastName: string,
    email: string,
    password: string)
}
