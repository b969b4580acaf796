/** The user table and the account actions of `lib/actions/user.actions.ts`:
    sign-up error routing, lookup by id, the three self-service updates, the
    admin update and delete, and the admin listing with its filter and
    offset pagination. */
module Users {
  import opened Common

  datatype Address = Address(
    fullName: string,
    streetAddress: string,
    city: string,
    postalCode: string,
    country: string)

  /** A user row; `address` is absent until the user saves one, and an empty
      `paymentMethod` stands for the unset (null) column. */
  datatype User = User(
    id: Id,
    name: string,
    email: string,
    role: string,
    address: Option<Address>,
    paymentMethod: string)

  /** The role a new account starts with (the column's default). */
  const DefaultRole := "user"

  /** The outcome of one step that may throw: the form parse or `signIn`. */
  datatype Step = Completed | Raised(error: Thrown)

  /** What `signUpUser` does with its caller: returns a result, or lets a
      navigation signal propagate. */
  datatype SignUpOutcome = Returned(result: ActionResult) | Rethrown

  /** The catch block of `signUpUser`: redirect signals propagate, every
      other error becomes an unsuccessful result carrying its message. */
  function RouteSignUpError(e: Thrown): (r: SignUpOutcome)
    ensures r.Rethrown? <==> e.Redirect?
    ensures e.Other? ==> r == Returned(Fail(e.message))
  {
    match e
    case Redirect => Rethrown
    case Other(m) => Returned(Fail(m))
  }

  ghost predicate ValidTable(users: seq<User>, nextId: Id)
  {
    && (forall k :: 0 <= k < |users| ==> users[k].id < nextId)
    && (forall k, l :: 0 <= k < l < |users| ==> users[k].id != users[l].id)
  }

  /** The first row with that id (`findUnique`/`findFirst` on the id). */
  function FindUser(users: seq<User>, id: Id): (r: Option<nat>)
    ensures r.Some? ==> r.value < |users| && users[r.value].id == id
    ensures r.Some? ==> forall k :: 0 <= k < r.value ==> users[k].id != id
    ensures r.None? <==> forall k :: 0 <= k < |users| ==> users[k].id != id
  {
    FirstWhere(users, (u: User) => u.id == id)
  }

  /** The row a self-service update writes to, AS WRITTEN:
      `findFirst({ where: { id: session?.user?.id } })`. When there is no
      user id the filter is `undefined`, which Prisma leaves out, so the
      query matches every row and yields the first one. */
  function CurrentUserAsWritten(users: seq<User>, auth: Option<Session>): (r: Option<nat>)
    ensures r.Some? ==> r.value < |users|
    ensures SessionUserId(auth).Some? ==> r == FindUser(users, SessionUserId(auth).value)
    ensures SessionUserId(auth).None? ==> r == (if users == [] then None else Some(0))
  {
    match SessionUserId(auth)
    case None => if users == [] then None else Some(0)
    case Some(id) => FindUser(users, id)
  }

  /** The address update as written, on the table alone. */
  function UpdateAddressAsWritten(users: seq<User>, auth: Option<Session>, address: Address): (r: seq<User>)
    ensures |r| == |users|
    ensures CurrentUserAsWritten(users, auth).None? ==> r == users
    ensures CurrentUserAsWritten(users, auth).Some? ==>
      var k := CurrentUserAsWritten(users, auth).value;
      r[k] == users[k].(address := Some(address)) &&
      forall l :: 0 <= l < |users| && l != k ==> r[l] == users[l]
  {
    match CurrentUserAsWritten(users, auth)
    case None => users
    case Some(k) => users[k := users[k].(address := Some(address))]
  }

  /** The discrepancy: a request with no session at all overwrites the
      address of whichever user comes first in the table. */
  lemma UnauthenticatedUpdateWritesFirstUser(users: seq<User>, address: Address)
    requires users != [] && users[0].address != Some(address)
    ensures UpdateAddressAsWritten(users, None, address) != users
    ensures UpdateAddressAsWritten(users, None, address)[0].address == Some(address)
  {
    assert UpdateAddressAsWritten(users, None, address)[0] != users[0];
  }

  /** The row a self-service update writes to, as evidently intended: the
      signed-in user's own row, and none without a signed-in user. */
  function CurrentUser(users: seq<User>, auth: Option<Session>): (r: Option<nat>)
    ensures r.Some? ==> r.value < |users| && SessionUserId(auth) == Some(users[r.value].id)
    ensures r.None? <==> SessionUserId(auth).None? || forall k :: 0 <= k < |users| ==> users[k].id != SessionUserId(auth).value
  {
    match SessionUserId(auth)
    case None => None
    case Some(id) => FindUser(users, id)
  }

  /** The corrected lookup never writes to another user's row. */
  lemma CurrentUserIsCaller(users: seq<User>, auth: Option<Session>, k: nat)
    requires k < |users| && CurrentUser(users, auth) == Some(k)
    ensures auth.Some? && auth.value.userId == Some(users[k].id)
  {
  }

  /** The two lookups agree whenever a user id is present. */
  lemma CurrentUserAgreesWhenSignedIn(users: seq<User>, auth: Option<Session>)
    requires SessionUserId(auth).Some?
    ensures CurrentUser(users, auth) == CurrentUserAsWritten(users, auth)
  {
  }

  /** The name filter is active only for a non-empty query other than 'all'. */
  predicate FilterActive(query: string)
  {
    query != "" && query != "all"
  }

  predicate MatchesQuery(u: User, query: string)
  {
    !FilterActive(query) || ContainsInsensitive(u.name, query)
  }

  /** The users the listing's `where` clause keeps, in the given order. */
  function Matching(users: seq<User>, query: string): (r: seq<User>)
    ensures |r| <= |users|
    ensures forall i :: 0 <= i < |r| ==> r[i] in users && MatchesQuery(r[i], query)
    ensures forall u :: u in users && MatchesQuery(u, query) ==> u in r
    ensures !FilterActive(query) ==> r == users
    decreases |users|
  {
    if users == [] then []
    else if MatchesQuery(users[0], query) then [users[0]] + Matching(users[1..], query)
    else Matching(users[1..], query)
  }

  /** The filter keeps table order: filtering a concatenation filters each
      part and concatenates the results. */
  lemma {:induction false} MatchingAppend(a: seq<User>, b: seq<User>, query: string)
    ensures Matching(a + b, query) == Matching(a, query) + Matching(b, query)
    decreases |a|
  {
    if a == [] {
      assert a + b == b;
    } else {
      var ab := a + b;
      assert ab[0] == a[0] && ab[1..] == a[1..] + b;
      MatchingAppend(a[1..], b, query);
      if MatchesQuery(a[0], query) {
        calc {
          Matching(ab, query);
          [a[0]] + Matching(a[1..] + b, query);
          [a[0]] + (Matching(a[1..], query) + Matching(b, query));
          ([a[0]] + Matching(a[1..], query)) + Matching(b, query);
        }
      } else {
        assert Matching(ab, query) == Matching(a[1..] + b, query);
      }
    }
  }

  /** `orderBy: { createdAt: 'desc' }` over a table kept in creation order. */
  function NewestFirst(users: seq<User>): (r: seq<User>)
    ensures |r| == |users|
    ensures forall i :: 0 <= i < |users| ==> r[i] == users[|users| - 1 - i]
  {
    seq(|users|, i requires 0 <= i < |users| => users[|users| - 1 - i])
  }

  /** `Math.ceil(count / limit)`. */
  function CeilDiv(count: nat, limit: nat): (pages: nat)
    requires limit > 0
    ensures count <= pages * limit < count + limit
  {
    var q := (count + limit - 1) / limit;
    assert q * limit <= count + limit - 1 < q * limit + limit;
    q
  }

  /** `skip` then `take`: at most `take` rows starting at `skip`, none when
      `skip` is past the end. */
  function Window(rows: seq<User>, skip: nat, take: nat): (r: seq<User>)
    ensures |r| <= take
    ensures skip >= |rows| ==> r == []
    ensures forall i :: 0 <= i < |r| ==> skip + i < |rows| && r[i] == rows[skip + i]
    ensures |r| == if skip >= |rows| then 0 else if skip + take <= |rows| then take else |rows| - skip
  {
    if skip >= |rows| then []
    else if skip + take <= |rows| then rows[skip..skip + take]
    else rows[skip..]
  }

  lemma MulMonotone(a: int, b: int, c: nat)
    requires a >= b
    ensures a * c >= b * c
  {
    assert a * c - b * c == (a - b) * c;
  }

  /** Deleting the row at `k` leaves exactly the rows with another id, when
      ids are unique. */
  lemma DropRowMembers(rows: seq<User>, k: nat)
    requires k < |rows|
    requires forall l :: 0 <= l < |rows| && l != k ==> rows[l].id != rows[k].id
    ensures forall u :: u in rows[..k] + rows[k + 1..] <==> u in rows && u.id != rows[k].id
  {
    var rest := rows[..k] + rows[k + 1..];
    forall u | u in rest ensures u in rows && u.id != rows[k].id {
      var i :| 0 <= i < |rest| && rest[i] == u;
      if i < k { assert u == rows[i]; } else { assert u == rows[i + 1]; }
    }
    forall u | u in rows && u.id != rows[k].id ensures u in rest {
      var i :| 0 <= i < |rows| && rows[i] == u;
      if i < k { assert rest[i] == u; } else { assert rest[i - 1] == u; }
    }
  }

  /** One page of the admin user list. */
  datatype UserPage = UserPage(data: seq<User>, totalPages: nat)

  class UserStore {
    /** The user table, in creation order. */
    var users: seq<User>
    var nextId: Id

    ghost predicate Valid()
      reads this
    {
      ValidTable(users, nextId)
    }

    constructor ()
      ensures Valid() && users == []
    {
      users := [];
      nextId := 0;
    }

    /** `getUserById`: the row with that id, or 'User not found'. */
    function GetUserById(id: Id): (r: Result<User>)
      reads this
      ensures r.Err? <==> forall k :: 0 <= k < |users| ==> users[k].id != id
      ensures r.Err? ==> r.message == "User not found"
      ensures r.Ok? ==> r.value.id == id && r.value in users
    {
      match FindUser(users, id)
      case None => Err("User not found")
      case Some(k) => Ok(users[k])
    }

    /** `getAllUsers`: newest first, filtered by name unless the query is
        empty or 'all', `skip = (page - 1) * limit`, `take = limit`, and a
        page count over all users regardless of the filter. A page below 1
        makes the skip negative, which the database rejects. */
    function GetAllUsers(page: int, limit: nat, query: string): (r: Result<UserPage>)
      requires limit > 0
      reads this
      ensures r.Err? <==> page < 1
      ensures r.Ok? ==> |r.value.data| <= limit
      ensures r.Ok? ==>
        var count := |Matching(NewestFirst(users), query)|;
        var skip := (page - 1) * limit;
        |r.value.data| == if skip >= count then 0 else if skip + limit <= count then limit else count - skip
      ensures r.Ok? ==> forall i :: 0 <= i < |r.value.data| ==>
        0 <= (page - 1) * limit + i < |Matching(NewestFirst(users), query)| &&
        r.value.data[i] == Matching(NewestFirst(users), query)[(page - 1) * limit + i]
      ensures r.Ok? ==> forall u :: u in r.value.data ==> u in users && MatchesQuery(u, query)
      ensures r.Ok? ==> |users| <= r.value.totalPages * limit < |users| + limit
    {
      if page < 1 then Err("Invalid page")
      else
        var rows := Matching(NewestFirst(users), query);
        MulMonotone(page - 1, 0, limit);
        var data := Window(rows, (page - 1) * limit, limit);
        Ok(UserPage(data, CeilDiv(|users|, limit)))
    }

    /** Asking for a page after the last one yields an empty page, not an
        error. */
    lemma PageBeyondLastIsEmpty(page: int, limit: nat, query: string)
      requires limit > 0 && GetAllUsers(page, limit, query).Ok?
      requires page > GetAllUsers(page, limit, query).value.totalPages
      ensures GetAllUsers(page, limit, query).value.data == []
    {
      var r := GetAllUsers(page, limit, query).value;
      var rows := Matching(NewestFirst(users), query);
      MulMonotone(page - 1, r.totalPages, limit);
      assert Window(rows, (page - 1) * limit, limit) == [];
    }

    /** `signUpUser`: the form is parsed, the row created, then `signIn`
        runs. Redirect signals from either step propagate; other errors
        become `{ success: false }`. The row stays created if `signIn` fails. */
    method SignUpUser(name: string, email: string, parse: Step, signIn: Step) returns (r: SignUpOutcome)
      requires Valid()
      modifies this
      ensures Valid()
      ensures parse.Raised? ==> r == RouteSignUpError(parse.error) && users == old(users) && nextId == old(nextId)
      ensures parse.Completed? ==>
        users == old(users) + [User(old(nextId), name, email, DefaultRole, None, "")] && nextId == old(nextId) + 1
      ensures parse.Completed? && signIn.Raised? ==> r == RouteSignUpError(signIn.error)
      ensures parse.Completed? && signIn.Completed? ==> r == Returned(ActionResult(true, "Signed up successfully"))
    {
      if parse.Raised? {
        return RouteSignUpError(parse.error);
      }
      users := users + [User(nextId, name, email, DefaultRole, None, "")];
      nextId := nextId + 1;
      if signIn.Raised? {
        return RouteSignUpError(signIn.error);
      }
      r := Returned(ActionResult(true, "Signed up successfully"));
    }

    /** `updateUserAddress`, with the corrected current-user lookup: only
        the signed-in user's address changes. */
    method UpdateUserAddress(auth: Option<Session>, address: Address) returns (r: ActionResult)
      requires Valid()
      modifies this
      ensures Valid() && nextId == old(nextId)
      ensures r.success <==> CurrentUser(old(users), auth).Some?
      ensures !r.success ==> r == Fail("User not found") && users == old(users)
      ensures r.success ==> r.message == "Address updated successfully"
      ensures r.success ==>
        var k := CurrentUser(old(users), auth).value;
        users == old(users)[k := old(users)[k].(address := Some(address))]
    {
      var current := CurrentUser(users, auth);
      if current.None? {
        return Fail("User not found");
      }
      var k := current.value;
      users := users[k := users[k].(address := Some(address))];
      r := ActionResult(true, "Address updated successfully");
    }

    /** `updateUserPaymentMethod`: only the signed-in user's payment method
        changes. */
    method UpdateUserPaymentMethod(auth: Option<Session>, paymentMethod: string) returns (r: ActionResult)
      requires Valid()
      modifies this
      ensures Valid() && nextId == old(nextId)
      ensures r.success <==> CurrentUser(old(users), auth).Some?
      ensures !r.success ==> r == Fail("User not found") && users == old(users)
      ensures r.success ==> r.message == "Payment method updated successfully"
      ensures r.success ==>
        var k := CurrentUser(old(users), auth).value;
        users == old(users)[k := old(users)[k].(paymentMethod := paymentMethod)]
    {
      var current := CurrentUser(users, auth);
      if current.None? {
        return Fail("User not found");
      }
      var k := current.value;
      users := users[k := users[k].(paymentMethod := paymentMethod)];
      r := ActionResult(true, "Payment method updated successfully");
    }

    /** `updateUserProfile`: only the signed-in user's name and email
        change. */
    method UpdateUserProfile(auth: Option<Session>, name: string, email: string) returns (r: ActionResult)
      requires Valid()
      modifies this
      ensures Valid() && nextId == old(nextId)
      ensures r.success <==> CurrentUser(old(users), auth).Some?
      ensures !r.success ==> r == Fail("User not found") && users == old(users)
      ensures r.success ==> r.message == "Profile updated successfully"
      ensures r.success ==>
        var k := CurrentUser(old(users), auth).value;
        users == old(users)[k := old(users)[k].(name := name, email := email)]
    {
      var current := CurrentUser(users, auth);
      if current.None? {
        return Fail("User not found");
      }
      var k := current.value;
      users := users[k := users[k].(name := name, email := email)];
      r := ActionResult(true, "Profile updated successfully");
    }

    /** `updateUser` (admin): only the name and role of the row with that id
        change; an unknown id is an error and writes nothing. */
    method UpdateUser(id: Id, name: string, role: string) returns (r: ActionResult)
      requires Valid()
      modifies this
      ensures Valid() && nextId == old(nextId)
      ensures r.success <==> exists k :: 0 <= k < |old(users)| && old(users)[k].id == id
      ensures !r.success ==> users == old(users)
      ensures r.success ==> r.message == "User updated successfully"
      ensures r.success ==> |users| == |old(users)|
      ensures r.success ==> forall k :: 0 <= k < |users| ==>
          users[k] == if old(users)[k].id == id then old(users)[k].(name := name, role := role) else old(users)[k]
    {
      var found := FindUser(users, id);
      if found.None? {
        return Fail("Record to update not found");
      }
      var k := found.value;
      users := users[k := users[k].(name := name, role := role)];
      r := ActionResult(true, "User updated successfully");
    }

    /** `deleteUser`: removes exactly the row with that id and keeps the
        others in order; an unknown id is an error and writes nothing. */
    method DeleteUser(id: Id) returns (r: ActionResult)
      requires Valid()
      modifies this
      ensures Valid() && nextId == old(nextId)
      ensures r.success <==> exists k :: 0 <= k < |old(users)| && old(users)[k].id == id
      ensures !r.success ==> users == old(users)
      ensures r.success ==> r.message == "User deleted successfully"
      ensures r.success ==>
        var k := FindUser(old(users), id).value;
        users == old(users)[..k] + old(users)[k + 1..]
      ensures forall u :: u in users <==> u in old(users) && u.id != id
    {
      var found := FindUser(users, id);
      if found.None? {
        return Fail("Record to delete does not exist");
      }
      var k := found.value;
      DropRowMembers(users, k);
      users := users[..k] + users[k + 1..];
      r := ActionResult(true, "User deleted successfully");
    }
  }
}
