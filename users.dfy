/**
  * The presence registry: the module-level `users` array of
  * `{ id, username, room }` records and the four operations on it.
  */
module Users {
  import opened Wrappers
  import opened Text

  /** One connected participant: the socket id and the normalised names. */
  datatype User = User(id: string, username: string, room: string)

  const RequiredError := "Username and room are required"
  const InUseError := "Username is in use!"

  // ------------------------------------------------------------------
  // Specification functions over the records
  // ------------------------------------------------------------------

  /** The index of the first record with socket id `id`
    * (`findIndex`, with `None` in place of -1). */
  function FirstIndex(users: seq<User>, id: string): (r: Option<nat>)
    ensures r.Some? ==> r.value < |users| && users[r.value].id == id
    ensures r.Some? ==> forall j :: 0 <= j < r.value ==> users[j].id != id
    ensures r.None? <==> forall j :: 0 <= j < |users| ==> users[j].id != id
  {
    if users == [] then None
    else if users[0].id == id then Some(0)
    else match FirstIndex(users[1..], id)
      case None => None
      case Some(k) => Some(k + 1)
  }

  /** The records whose room is `room`, in registry order (`filter`). */
  function InRoom(users: seq<User>, room: string): (r: seq<User>)
    ensures |r| <= |users|
    ensures forall u :: u in r ==> u in users && u.room == room
  {
    if users == [] then []
    else (if users[0].room == room then [users[0]] else []) + InRoom(users[1..], room)
  }

  /** The socket ids named by a list of records. */
  function Ids(users: seq<User>): set<string>
  {
    set u | u in users :: u.id
  }

  /** The sockets currently registered in `room`. */
  function Members(users: seq<User>, room: string): set<string>
  {
    Ids(InRoom(users, room))
  }

  /** The record is in `room` under the name `username`. */
  predicate Holds(u: User, room: string, username: string)
  {
    u.room == room && u.username == username
  }

  /** Some record already has this room and this user name (`find` succeeds). */
  predicate NameTaken(users: seq<User>, room: string, username: string)
  {
    exists i :: 0 <= i < |users| && Holds(users[i], room, username)
  }

  /** No two records share both room and user name. */
  predicate UniqueNames(users: seq<User>)
  {
    forall i, j :: 0 <= i < j < |users| ==>
      users[i].room != users[j].room || users[i].username != users[j].username
  }

  /** Every stored user name and room is non-empty and normalised. */
  predicate AllNormal(users: seq<User>)
  {
    forall i :: 0 <= i < |users| ==>
      users[i].username != [] && IsNormal(users[i].username) &&
      users[i].room != [] && IsNormal(users[i].room)
  }

  /** No two records share a socket id (what the transport guarantees as
    * long as no socket joins twice). */
  predicate IdsDistinct(users: seq<User>)
  {
    forall i, j :: 0 <= i < j < |users| ==> users[i].id != users[j].id
  }

  /** `xs` is `ys` with some elements left out, the rest in their order. */
  predicate IsSubsequence<T(==)>(xs: seq<T>, ys: seq<T>)
    decreases |ys|
  {
    if xs == [] then true
    else if ys == [] then false
    else if xs[0] == ys[0] then IsSubsequence(xs[1..], ys[1..])
    else IsSubsequence(xs, ys[1..])
  }

  // ------------------------------------------------------------------
  // Lemmas
  // ------------------------------------------------------------------

  /** Listing a room distributes over concatenation of registries. */
  lemma {:induction false} InRoomAppend(a: seq<User>, b: seq<User>, room: string)
    ensures InRoom(a + b, room) == InRoom(a, room) + InRoom(b, room)
  {
    if a == [] {
      assert a + b == b;
    } else {
      assert (a + b)[0] == a[0];
      assert (a + b)[1..] == a[1..] + b;
      InRoomAppend(a[1..], b, room);
    }
  }

  /** Every record of the room is listed. */
  lemma {:induction false} InRoomComplete(users: seq<User>, room: string, u: User)
    requires u in users && u.room == room
    ensures u in InRoom(users, room)
  {
    if users[0] != u {
      assert u in users[1..];
      InRoomComplete(users[1..], room, u);
    }
  }

  /** The listing keeps registry order. */
  lemma {:induction false} InRoomIsSubsequence(users: seq<User>, room: string)
    ensures IsSubsequence(InRoom(users, room), users)
  {
    if users != [] {
      InRoomIsSubsequence(users[1..], room);
      var rest := InRoom(users[1..], room);
      if users[0].room == room {
        assert InRoom(users, room) == [users[0]] + rest;
        assert ([users[0]] + rest)[1..] == rest;
      } else {
        assert InRoom(users, room) == rest;
        if rest != [] {
          assert rest[0] in rest;
        }
      }
    }
  }

  /** A first match is the index `FirstIndex` finds. */
  lemma {:induction false} FirstIndexUnique(users: seq<User>, id: string, k: nat)
    requires k < |users| && users[k].id == id
    requires forall j :: 0 <= j < k ==> users[j].id != id
    ensures FirstIndex(users, id) == Some(k)
  {
    if k > 0 {
      FirstIndexUnique(users[1..], id, k - 1);
    }
  }

  /** Appending a normalised record whose (room, name) pair is new keeps the
    * registry's invariants. */
  lemma AddKeepsInvariants(users: seq<User>, u: User)
    requires UniqueNames(users) && AllNormal(users)
    requires u.username != [] && IsNormal(u.username) && u.room != [] && IsNormal(u.room)
    requires !NameTaken(users, u.room, u.username)
    ensures UniqueNames(users + [u]) && AllNormal(users + [u])
  {
    var s := users + [u];
    assert forall i :: 0 <= i < |users| ==> s[i] == users[i];
    forall i, j | 0 <= i < j < |s|
      ensures s[i].room != s[j].room || s[i].username != s[j].username
    {
      if j == |users| {
        assert s[i] == users[i];
      } else {
        assert s[i] == users[i] && s[j] == users[j];
      }
    }
  }

  /** Removing one record keeps the registry's invariants. */
  lemma RemoveKeepsInvariants(users: seq<User>, k: nat)
    requires k < |users|
    requires UniqueNames(users) && AllNormal(users)
    ensures UniqueNames(users[..k] + users[k + 1..])
    ensures AllNormal(users[..k] + users[k + 1..])
  {
    var s := users[..k] + users[k + 1..];
    assert forall i :: 0 <= i < |s| ==> s[i] == users[if i < k then i else i + 1];
  }

  /** With distinct socket ids, the removed socket leaves no record behind,
    * so removing it a second time finds nothing. */
  lemma RemoveTwiceFindsNothing(users: seq<User>, k: nat)
    requires k < |users| && IdsDistinct(users)
    ensures FirstIndex(users[..k] + users[k + 1..], users[k].id) == None
  {
    var s := users[..k] + users[k + 1..];
    forall i | 0 <= i < |s| ensures s[i].id != users[k].id {
      assert s[i] == users[if i < k then i else i + 1];
    }
  }

  /** With distinct socket ids, the removed socket is no longer a member of
    * any room. */
  lemma RemovedIsNoMember(users: seq<User>, k: nat, room: string)
    requires k < |users| && IdsDistinct(users)
    ensures users[k].id !in Members(users[..k] + users[k + 1..], room)
  {
    var s := users[..k] + users[k + 1..];
    RemoveTwiceFindsNothing(users, k);
    forall u | u in InRoom(s, room) ensures u.id != users[k].id {
      var i :| 0 <= i < |s| && s[i] == u;
    }
  }

  // ------------------------------------------------------------------
  // The linear scans the operations run
  // ------------------------------------------------------------------

  /** `users.find(user => user.room === room && user.username === username)`,
    * reduced to whether it finds a record. */
  method FindName(users: seq<User>, room: string, username: string) returns (found: bool)
    ensures found == NameTaken(users, room, username)
  {
    var i := 0;
    while i < |users|
      invariant 0 <= i <= |users|
      invariant forall j :: 0 <= j < i ==> !Holds(users[j], room, username)
    {
      if Holds(users[i], room, username) {
        return true;
      }
      i := i + 1;
    }
    found := false;
  }

  /** `users.findIndex(user => user.id === id)`, with `None` for -1. */
  method FindIndex(users: seq<User>, id: string) returns (r: Option<nat>)
    ensures r == FirstIndex(users, id)
  {
    var i := 0;
    while i < |users| && users[i].id != id
      invariant 0 <= i <= |users|
      invariant forall j :: 0 <= j < i ==> users[j].id != id
    {
      i := i + 1;
    }
    r := if i == |users| then None else Some(i);
    assert r.Some? ==> users[r.value].id == id;
    if r.Some? {
      FirstIndexUnique(users, id, i);
    }
  }

  /** `users.filter(user => user.room === room)`. */
  method Filter(users: seq<User>, room: string) returns (r: seq<User>)
    ensures r == InRoom(users, room)
  {
    r := [];
    var i := 0;
    while i < |users|
      invariant 0 <= i <= |users|
      invariant r == InRoom(users[..i], room)
    {
      var u := users[i];
      assert users[..i + 1] == users[..i] + [u];
      InRoomAppend(users[..i], [u], room);
      assert InRoom([u], room) == if u.room == room then [u] else [] by {
        assert [u][1..] == [];
      }
      if u.room == room {
        r := r + [u];
      }
      i := i + 1;
    }
    assert users[..i] == users;
  }

  // ------------------------------------------------------------------
  // The registry object
  // ------------------------------------------------------------------

  /** The `users` array of `src/utils/users.js` with its four operations. */
  class Registry {
    var users: seq<User>

    /** The registry's invariant: normalised, non-empty names, and no two
      * records with the same room and user name. */
    ghost predicate Valid()
      reads this
    {
      UniqueNames(users) && AllNormal(users)
    }

    /** The empty array the module starts with. */
    constructor ()
      ensures Valid() && users == []
    {
      users := [];
    }

    /** `addUSer`: normalise both names, reject empty ones, reject a name
      * already used in that room, otherwise append the record and return it. */
    method AddUser(id: string, username: string, room: string) returns (r: Result<User, string>)
      requires Valid()
      modifies this
      ensures Valid()
      ensures Normalize(username) == [] || Normalize(room) == [] ==>
        r == Failure(RequiredError) && users == old(users)
      ensures Normalize(username) != [] && Normalize(room) != [] &&
        NameTaken(old(users), Normalize(room), Normalize(username))
        ==> r == Failure(InUseError) && users == old(users)
      ensures Normalize(username) != [] && Normalize(room) != [] &&
        !NameTaken(old(users), Normalize(room), Normalize(username))
        ==> var user := User(id, Normalize(username), Normalize(room));
        r == Success(user) && users == old(users) + [user]
    {
      var name := Normalize(username);
      var key := Normalize(room);
      if name == [] || key == [] {
        return Failure(RequiredError);
      }
      var taken := FindName(users, key, name);
      if taken {
        return Failure(InUseError);
      }
      var user := User(id, name, key);
      AddKeepsInvariants(users, user);
      users := users + [user];
      r := Success(user);
    }

    /** `removeUser`: take out the first record with this socket id and
      * return it; without such a record nothing changes. */
    method RemoveUser(id: string) returns (r: Option<User>)
      requires Valid()
      modifies this
      ensures Valid()
      ensures match FirstIndex(old(users), id)
        case None => r == None && users == old(users)
        case Some(k) => r == Some(old(users)[k]) && users == old(users)[..k] + old(users)[k + 1..]
    {
      var index := FindIndex(users, id);
      if index.None? {
        return None;
      }
      var k := index.value;
      r := Some(users[k]);
      RemoveKeepsInvariants(users, k);
      users := users[..k] + users[k + 1..];
    }

    /** `getUser`: the first record with this socket id, if any. */
    method GetUser(id: string) returns (r: Option<User>)
      ensures match FirstIndex(users, id)
        case None => r == None
        case Some(k) => r == Some(users[k])
    {
      var index := FindIndex(users, id);
      r := if index.None? then None else Some(users[index.value]);
    }

    /** `getUsersInRoom`: the records of the normalised room, in order. */
    method GetUsersInRoom(room: string) returns (r: seq<User>)
      ensures r == InRoom(users, Normalize(room))
      ensures forall u :: u in r <==> u in users && u.room == Normalize(room)
      ensures IsSubsequence(r, users)
    {
      var key := Normalize(room);
      r := Filter(users, key);
      forall u | u in users && u.room == key ensures u in r {
        InRoomComplete(users, key, u);
      }
      InRoomIsSubsequence(users, key);
    }
  }
}
