/** The Register page: its submit handler.  Its effect, which navigates once
    a user is present, is `LocationSearch.AfterSignIn(user, search)`. */
module RegisterPage {
  import opened Common
  import opened UserApi

  const MismatchMessage: string := "Passwords do not match"
  const FailedMessage: string := "Registration failed. Please try again."

  /** The page's form state, its message, the URL's query string and the
      context's user. */
  class Register {
    var username: string
    var firstName: string
    var lastName: string
    var email: string
    var password: string
    var confirmPassword: string
    var message: Option<string>
    const search: string
    var user: Option<UserInfo>

    constructor (search: string, user: Option<UserInfo>)
      ensures this.search == search && this.user == user && message == None
      ensures username == "" && firstName == "" && lastName == ""
      ensures email == "" && password == "" && confirmPassword == ""
    {
      this.search := search;
      this.user := user;
      message := None;
      username, firstName, lastName := "", "", "";
      email, password, confirmPassword := "", "", "";
    }

    /** `submitHandler`: a password that differs from its confirmation sets
        "Passwords do not match" and sends nothing; otherwise `register` is
        called only with a non-empty email and password.  Truthy response
        data becomes the user; an undefined result (the helper swallowed the
        error) throws on destructuring and the catch sets "Registration
        failed. Please try again.". */
    method SubmitHandler(reply: Reply) returns (sent: Option<Registration>)
      modifies this`message, this`user
      ensures sent.Some? <==> password == confirmPassword && email != "" && password != ""
      ensures sent.Some? ==> sent.value == Registration(username, firstName, lastName, email, password)
      ensures message ==
        if password != confirmPassword then Some(MismatchMessage)
        else if sent.Some? && reply.Undefined? then Some(FailedMessage)
        else old(message)
      ensures user == (if sent.Some? && reply.Response? && reply.data.Some? then reply.data else old(user))
    {
      sent := None;
      if password != confirmPassword {
        message := Some(MismatchMessage);
      } else {
        if email != "" && password != "" {
          sent := Some(Registration(username, firstName, lastName, email, password));
          match reply {
            case Undefined =>
              message := Some(FailedMessage);
            case Response(data) =>
              if data.Some? {
                user := data;
              }
          }
        }
      }
    }
  }
}
