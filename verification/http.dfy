/** The parts of an Express request and response that the modelled handlers
    read and write. */
module Http {
  import opened Common
  import opened UserModel
  import opened CropModel

  /** Express's status before any handler sets one. */
  const InitialStatus: int := 200

  /** The JSON bodies the modelled handlers send. */
  datatype Body =
    | CropJson(crop: Crop)
    | CropsJson(crops: set<Crop>)
    | MessageJson(message: string)

  /** The `req.user` slot: never set (undefined), set to null by `protect`
      when the decoded id has no record, or holding a user. */
  datatype UserSlot = Unset | Null | Present(user: User) {
    /** The slot as the gates read it: undefined and null are both falsy. */
    function AsOption(): (o: Option<User>)
      ensures o.Some? <==> this.Present?
      ensures o.Some? ==> o.value == user
    {
      if Present? then Some(user) else None
    }
  }

  /** The request: its `token` cookie and the `req.user` slot that `protect`
      fills in. */
  class Request {
    var token: Option<string>
    var user: UserSlot

    constructor (token: Option<string>)
      ensures this.token == token && user == Unset
    {
      this.token := token;
      user := Unset;
    }
  }

  /** The response: `res.status(code)` sets the status, `res.json(body)` sends
      a body. */
  class HttpResponse {
    var status: int
    var body: Option<Body>

    constructor ()
      ensures status == InitialStatus && body == None
    {
      status := InitialStatus;
      body := None;
    }

    method Status(code: int)
      modifies this
      ensures status == code && body == old(body)
    {
      status := code;
    }

    method Json(b: Body)
      modifies this
      ensures body == Some(b) && status == old(status)
    {
      body := Some(b);
    }
  }
}
