/** Passport's session hooks and the Google strategy's verify callback, over a
    User collection held as a map from id to record.

    The OAuth exchange itself is an oracle: the callback receives the access
    token and the provider profile as parameters. */
module PassportSetup {
  import opened Common
  import opened UserModel

  /** The parts of the Google profile the callback reads; `emails` may be
      empty. */
  datatype Profile = Profile(
    id: string,
    givenName: string,
    familyName: string,
    emails: seq<string>,
    picture: Option<string>)

  /** How the verify callback ends: `done(null, user)` is called, or the
      promise chain rejects (reading `emails[0].value` of an empty list) and
      `done` is never called. */
  datatype VerifyOutcome = Done(user: User) | NeverDone

  /** `serializeUser`: the session keeps only the user's id. */
  function SerializeUser(user: User): (id: UserId)
    ensures id == user.id
  {
    user.id
  }

  /** `deserializeUser`: `User.findById(id)`, null when there is no record. */
  function DeserializeUser(users: map<UserId, User>, id: UserId): (r: Option<User>)
    ensures r.Some? <==> id in users
    ensures r.Some? ==> r.value == users[id]
  {
    if id in users then Some(users[id]) else None
  }

  /** A well-formed collection: every record is stored under its own id. */
  ghost predicate KeyedById(users: map<UserId, User>) {
    forall id :: id in users ==> users[id].id == id
  }

  /** Round trip: deserializing the serialized id of a stored user gives that
      user back. */
  lemma SerializeRoundTrip(users: map<UserId, User>, user: User)
    requires KeyedById(users)
    requires user in users.Values
    ensures DeserializeUser(users, SerializeUser(user)) == Some(user)
  {
    var id :| id in users && users[id] == user;
  }

  /** Some stored record carries this Google id. */
  ghost predicate HasGoogleUser(users: map<UserId, User>, googleId: string) {
    exists id :: id in users && users[id].googleId == Some(googleId)
  }

  /** The record the callback creates for a first-time Google sign-in. */
  function NewGoogleUser(profile: Profile, id: UserId): (u: User)
    requires |profile.emails| > 0
    ensures u.id == id && u.googleId == Some(profile.id)
    ensures u.password.None? && u.accessToken.None? && u.role == DefaultRole
    ensures u.email == profile.emails[0] && u.profilePic == profile.picture
    ensures u.firstName == profile.givenName && u.lastName == profile.familyName
  {
    User(
      id := id,
      username := profile.givenName + profile.familyName,
      email := profile.emails[0],
      password := None,
      firstName := profile.givenName,
      lastName := profile.familyName,
      profilePic := profile.picture,
      role := DefaultRole,
      googleId := Some(profile.id),
      accessToken := None)
  }

  /** The new account's username is the given name followed directly by the
      family name, with no separator. */
  lemma NewUsernameConcatenatesNames(profile: Profile, id: UserId)
    requires |profile.emails| > 0
    ensures var name := NewGoogleUser(profile, id).username;
      |name| == |profile.givenName| + |profile.familyName| &&
      name[..|profile.givenName|] == profile.givenName &&
      name[|profile.givenName|..] == profile.familyName
  {
  }

  /** The User collection.  `nextId` stands for the database's supply of fresh
      ObjectIds: every stored id is below it. */
  class UserStore {
    var users: map<UserId, User>
    var nextId: UserId

    ghost predicate Valid()
      reads this
    {
      KeyedById(users) && forall id :: id in users ==> id < nextId
    }

    constructor ()
      ensures Valid() && users == map[]
    {
      users := map[];
      nextId := 0;
    }

    /** The GoogleStrategy verify callback: find a user by `googleId`; if one
        exists hand it on with the fresh access token set on the returned
        object only; otherwise insert one new record built from the profile
        and hand it on with the access token set. */
    method GoogleVerify(accessToken: string, refreshToken: string, profile: Profile)
      returns (outcome: VerifyOutcome)
      requires Valid()
      modifies this
      ensures Valid()
      ensures HasGoogleUser(old(users), profile.id) ==>
        && users == old(users) && nextId == old(nextId)
        && outcome.Done?
        && outcome.user.id in users
        && users[outcome.user.id].googleId == Some(profile.id)
        && outcome.user == users[outcome.user.id].(accessToken := Some(accessToken))
      ensures !HasGoogleUser(old(users), profile.id) && |profile.emails| == 0 ==>
        users == old(users) && nextId == old(nextId) && outcome == NeverDone
      ensures !HasGoogleUser(old(users), profile.id) && |profile.emails| > 0 ==>
        && old(nextId) !in old(users)
        && users == old(users)[old(nextId) := NewGoogleUser(profile, old(nextId))]
        && outcome == Done(NewGoogleUser(profile, old(nextId)).(accessToken := Some(accessToken)))
      ensures outcome.Done? ==>
        && outcome.user.accessToken == Some(accessToken)
        && HasGoogleUser(users, profile.id)
        && DeserializeUser(users, SerializeUser(outcome.user))
           == Some(outcome.user.(accessToken := users[outcome.user.id].accessToken))
    {
      if exists id :: id in users && users[id].googleId == Some(profile.id) {
        var id :| id in users && users[id].googleId == Some(profile.id);
        var existingUser := users[id];
        outcome := Done(existingUser.(accessToken := Some(accessToken)));
      } else if |profile.emails| == 0 {
        outcome := NeverDone;
      } else {
        var newUser := NewGoogleUser(profile, nextId);
        users := users[nextId := newUser];
        assert users[newUser.id].googleId == Some(profile.id);
        nextId := nextId + 1;
        outcome := Done(newUser.(accessToken := Some(accessToken)));
      }
    }

    /** Two sign-ins in a row with the same Google profile insert at most one
        record between them: once the first has handed a user on, the second
        finds it and leaves the collection alone. */
    method SignInTwice(firstToken: string, secondToken: string, profile: Profile)
      returns (first: VerifyOutcome, second: VerifyOutcome)
      requires Valid()
      modifies this
      ensures Valid()
      ensures first.Done? <==> second.Done?
      ensures second.Done? ==> second.user.googleId == Some(profile.id)
      ensures second.Done? ==> second.user.accessToken == Some(secondToken)
      ensures forall id :: id in old(users) ==> id in users && users[id] == old(users)[id]
      ensures forall id :: id in users && id !in old(users) ==> id == old(nextId)
    {
      first := GoogleVerify(firstToken, "", profile);
      ghost var afterFirst := users;
      second := GoogleVerify(secondToken, "", profile);
      assert users == afterFirst;
    }
  }
}
