/** The admin "manage users" page: its search filter, the choice of rows it
    renders, the Promote/Demote buttons and the role update they send.

    Rows are the user objects the API returns.  The filter looks at the
    string form (`String(o[k])`) of every property value; a row keeps those
    string forms, the modelled fields first and the remaining properties
    (username, googleId, timestamps, ...) in `otherFields`. */
module ManageUsers {
  import opened Common
  import opened JsString

  datatype UserRow = UserRow(
    id: string,
    firstName: string,
    lastName: string,
    email: string,
    role: string,
    otherFields: seq<string>)

  /** `Object.keys(o).map(k => String(o[k]))`, in some key order: the string
      form of every property is searched, the shown ones and all others. */
  function FieldTexts(u: UserRow): (texts: seq<string>)
    ensures |texts| == 5 + |u.otherFields|
    ensures u.id in texts && u.firstName in texts && u.lastName in texts && u.email in texts && u.role in texts
    ensures forall f :: f in u.otherFields ==> f in texts
    ensures forall t :: t in texts ==>
      t in [u.id, u.firstName, u.lastName, u.email, u.role] || t in u.otherFields
  {
    [u.id, u.firstName, u.lastName, u.email, u.role] + u.otherFields
  }

  /** The filter's test: some field's string form, lower-cased, includes the
      lower-cased query; that is, the lower-cased query occurs at some
      position of some lower-cased field. */
  predicate RowMatches(u: UserRow, query: string): (b: bool)
    ensures b <==> (exists k, i :: 0 <= k < |FieldTexts(u)| &&
                              OccursAt(ToLower(FieldTexts(u)[k]), ToLower(query), i))
  {
    IncludesIffOccursInEach(FieldTexts(u), ToLower(query));
    exists k :: 0 <= k < |FieldTexts(u)| && Includes(ToLower(FieldTexts(u)[k]), ToLower(query))
  }

  /** `includes` agrees with occurrence in every lower-cased field. */
  lemma IncludesIffOccursInEach(texts: seq<string>, q: string)
    ensures forall k :: 0 <= k < |texts| ==>
      (Includes(ToLower(texts[k]), q) <==> exists i :: OccursAt(ToLower(texts[k]), q, i))
  {
    forall k | 0 <= k < |texts|
      ensures Includes(ToLower(texts[k]), q) <==> exists i :: OccursAt(ToLower(texts[k]), q, i)
    {
      IncludesIffOccurs(ToLower(texts[k]), q);
    }
  }

  /** `users.filter(o => Object.keys(o).some(...))`. */
  function FilterRows(users: seq<UserRow>, query: string): (r: seq<UserRow>)
    ensures |r| <= |users|
    ensures forall u :: u in r ==> u in users && RowMatches(u, query)
    decreases |users|
  {
    if users == [] then []
    else
      var rest := FilterRows(users[1..], query);
      if RowMatches(users[0], query) then [users[0]] + rest else rest
  }

  /** `r` is `s` with some elements left out, the rest kept in order. */
  ghost predicate IsSubsequence(r: seq<UserRow>, s: seq<UserRow>)
    decreases |s|
  {
    if r == [] then true
    else if s == [] then false
    else (r[0] == s[0] && IsSubsequence(r[1..], s[1..])) || IsSubsequence(r, s[1..])
  }

  /** The filtered table keeps the order of `users`. */
  lemma {:induction false} FilterIsSubsequence(users: seq<UserRow>, query: string)
    ensures IsSubsequence(FilterRows(users, query), users)
    decreases |users|
  {
    if users != [] {
      FilterIsSubsequence(users[1..], query);
      var rest := FilterRows(users[1..], query);
      if RowMatches(users[0], query) {
        assert ([users[0]] + rest)[1..] == rest;
      }
    }
  }

  /** The filtered table holds exactly the matching rows, each as many times
      as it occurs in `users`. */
  lemma {:induction false} FilterKeepsExactlyMatches(users: seq<UserRow>, query: string, u: UserRow)
    ensures multiset(FilterRows(users, query))[u] ==
      (if RowMatches(u, query) then multiset(users)[u] else 0)
    decreases |users|
  {
    if users != [] {
      FilterKeepsExactlyMatches(users[1..], query, u);
      assert users == [users[0]] + users[1..];
    }
  }

  /** The filter ignores the case of ASCII letters in the query. */
  lemma FilterIgnoresQueryCase(users: seq<UserRow>, query: string)
    ensures FilterRows(users, ToLower(query)) == FilterRows(users, query)
  {
    ToLowerIdempotent(query);
  }

  /** The filter ignores case: queries equal up to the case of ASCII
      letters filter to the same table. */
  lemma FilterIsCaseInsensitive(users: seq<UserRow>, q1: string, q2: string)
    requires EqualIgnoringCase(q1, q2)
    ensures FilterRows(users, q1) == FilterRows(users, q2)
  {
    ToLowerOfEqualIgnoringCase(q1, q2);
  }

  /** The filter expression itself keeps every row for the empty query
      (every string includes "").  `filterData` never applies it to "": it
      leaves `tableFilter` alone then, and the table shows all users anyway. */
  lemma {:induction false} EmptyQueryKeepsAll(users: seq<UserRow>)
    ensures FilterRows(users, "") == users
    decreases |users|
  {
    if users != [] {
      EmptyQueryKeepsAll(users[1..]);
      IncludesEmpty(ToLower(FieldTexts(users[0])[0]));
      assert ToLower("") == "";
    }
  }

  /** The role `handleRole` sends: "admin" when asked for "admin", "user"
      for anything else. */
  function RoleSent(requested: string): (r: string)
    ensures r == "admin" <==> requested == "admin"
    ensures r == "admin" || r == "user"
  {
    if requested == "admin" then "admin" else "user"
  }

  /** Promote is disabled exactly for admins: exactly when the "admin" it
      asks for would re-send the current role. */
  predicate PromoteDisabled(u: UserRow): (b: bool)
    ensures b <==> RoleSent("admin") == u.role
  {
    u.role == "admin"
  }

  /** Demote is disabled exactly for plain users: exactly when the "user" it
      asks for would re-send the current role. */
  predicate DemoteDisabled(u: UserRow): (b: bool)
    ensures b <==> RoleSent("user") == u.role
  {
    u.role == "user"
  }

  /** An enabled button always asks for a role the user does not have, and a
      disabled one would have re-sent the current role.  Demoting a moderator
      or contributor sends "user". */
  lemma EnabledButtonChangesRole(u: UserRow)
    ensures !PromoteDisabled(u) <==> RoleSent("admin") != u.role
    ensures !DemoteDisabled(u) <==> RoleSent("user") != u.role
    ensures (u.role == "moderator" || u.role == "contributor") ==>
      !PromoteDisabled(u) && !DemoteDisabled(u)
  {
  }

  /** The body `updateUser` sends. */
  datatype RoleUpdate = RoleUpdate(id: string, role: string)

  /** The page's state: the fetched users, the search box's `value`, and the
      `tableFilter` computed on the last non-empty search. */
  class ManageUsersPage {
    var users: seq<UserRow>
    var value: string
    var tableFilter: seq<UserRow>

    constructor ()
      ensures users == [] && value == "" && tableFilter == []
    {
      users := [];
      value := "";
      tableFilter := [];
    }

    /** The rows the table body renders. */
    function RenderedRows(): (rows: seq<UserRow>)
      reads this
      ensures |value| > 0 ==> rows == tableFilter
      ensures |value| == 0 ==> rows == users
    {
      if |value| > 0 then tableFilter else users
    }

    /** `getAllUsers`: replace `users` with the fetched list.  When the request
        fails the helper returns undefined, destructuring it throws, and
        nothing changes. */
    method GetAllUsers(fetched: Option<seq<UserRow>>)
      modifies this
      ensures users == (if fetched.Some? then fetched.value else old(users))
      ensures value == old(value) && tableFilter == old(tableFilter)
    {
      if fetched.Some? {
        users := fetched.value;
      }
    }

    /** `filterData`: the search box's new text becomes `value`; a non-empty
        text also recomputes `tableFilter` from the current users. */
    method FilterData(input: string)
      modifies this
      ensures value == input && users == old(users)
      ensures input != "" ==> tableFilter == FilterRows(users, input)
      ensures input == "" ==> tableFilter == old(tableFilter)
      ensures RenderedRows() == (if input != "" then FilterRows(users, input) else users)
      ensures InSync()
    {
      if input != "" {
        value := input;
        tableFilter := FilterRows(users, input);
      } else {
        value := input;
      }
    }

    /** `handleRole`: send the mapped role for this id, then re-fetch the list
        (`updateUser` swallows its own errors, so the re-fetch always runs). */
    method HandleRole(id: string, requested: string, fetched: Option<seq<UserRow>>)
      returns (sent: RoleUpdate)
      modifies this
      ensures sent == RoleUpdate(id, RoleSent(requested))
      ensures users == (if fetched.Some? then fetched.value else old(users))
      ensures value == old(value) && tableFilter == old(tableFilter)
    {
      if requested == "admin" {
        sent := RoleUpdate(id, "admin");
      } else {
        sent := RoleUpdate(id, "user");
      }
      GetAllUsers(fetched);
    }

    /** The rendered table agrees with the current users: while the search
        box is non-empty, `tableFilter` is the filter of `users` by it. */
    ghost predicate InSync()
      reads this
    {
      |value| > 0 ==> tableFilter == FilterRows(users, value)
    }

    /** `handleRole` with the filtered table recomputed after the re-fetch,
        so that the rendered rows always reflect the fetched users. */
    method HandleRoleAndRefilter(id: string, requested: string, fetched: Option<seq<UserRow>>)
      returns (sent: RoleUpdate)
      modifies this
      ensures sent == RoleUpdate(id, RoleSent(requested))
      ensures users == (if fetched.Some? then fetched.value else old(users))
      ensures value == old(value)
      ensures value == "" ==> tableFilter == old(tableFilter)
      ensures InSync()
      ensures RenderedRows() == (if value != "" then FilterRows(users, value) else users)
    {
      sent := HandleRole(id, requested, fetched);
      if value != "" {
        tableFilter := FilterRows(users, value);
      }
    }
  }

  /** A user whose first name is "bob". */
  function Bob(role: string): UserRow {
    UserRow("1", "bob", "stone", "b@x", role, [])
  }

  lemma BobMatchesBob(role: string)
    ensures RowMatches(Bob(role), "bob")
  {
    assert ToLower("bob") == "bob";
    assert StartsWith("bob", "bob");
    assert FieldTexts(Bob(role))[1] == "bob";
  }

  /** As written: search for "bob", press Promote on Bob, and the re-fetch
      returns Bob as an admin; the table still shows the row from before the
      promotion, with Promote still enabled. */
  method PromoteWhileSearching() returns (shown: seq<UserRow>)
    ensures shown == [Bob("user")]
    ensures !PromoteDisabled(shown[0])
  {
    var page := new ManageUsersPage();
    page.GetAllUsers(Some([Bob("user")]));
    BobMatchesBob("user");
    page.FilterData("bob");
    var _ := page.HandleRole("1", "admin", Some([Bob("admin")]));
    shown := page.RenderedRows();
  }

  /** Corrected: the same steps with the table re-filtered show Bob as an
      admin, with Promote disabled. */
  method PromoteWhileSearchingRefiltered() returns (shown: seq<UserRow>)
    ensures shown == [Bob("admin")]
    ensures PromoteDisabled(shown[0])
  {
    var page := new ManageUsersPage();
    page.GetAllUsers(Some([Bob("user")]));
    BobMatchesBob("user");
    page.FilterData("bob");
    BobMatchesBob("admin");
    var _ := page.HandleRoleAndRefilter("1", "admin", Some([Bob("admin")]));
    shown := page.RenderedRows();
  }
}
