/** The Login page: its submit handler.  Its effect, which navigates once a
    user is present, is `LocationSearch.AfterSignIn(user, search)`. */
module LoginPage {
  import opened Common
  import opened UserApi

  /** The page's form state, the URL's query string and the context's user. */
  class Login {
    var email: string
    var password: string
    const search: string
    var user: Option<UserInfo>

    constructor (search: string, user: Option<UserInfo>)
      ensures this.search == search && this.user == user
      ensures email == "" && password == ""
    {
      this.search := search;
      this.user := user;
      email := "";
      password := "";
    }

    /** `submitHandler`: only with a non-empty email and password is `login`
        called; the user is set only from truthy response data.  When the
        helper returns undefined, destructuring it rejects the handler's
        promise (`rejected`) and nothing changes. */
    method SubmitHandler(reply: Reply) returns (sent: Option<Credentials>, rejected: bool)
      modifies this`user
      ensures sent == (if email != "" && password != "" then Some(Credentials(email, password)) else None)
      ensures rejected <==> sent.Some? && reply.Undefined?
      ensures user == (if sent.Some? && reply.Response? && reply.data.Some? then reply.data else old(user))
    {
      sent, rejected := None, false;
      if email != "" && password != "" {
        sent := Some(Credentials(email, password));
        if reply.Undefined? {
          rejected := true;
          return;
        }
        if reply.data.Some? {
          user := reply.data;
        }
      }
    }
  }
}
