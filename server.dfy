/**
  * The socket event handlers of `src/index.js` (`join`, `disconnect`,
  * `sendMessage`, `sendLocation`) as decision procedures over the registry.
  * Each handler returns its acknowledgement and the ordered list of events it
  * emits, each event with the set of socket ids it is delivered to.
  */
module Server {
  import opened Wrappers
  import opened Text
  import opened Users

  const Admin := "Admin"
  const WelcomeMsg := "welcome to the chat room,"
  const NewConnMsg := "joined room."
  const DisConnMsg := "left room!"
  const ProfanityError := "Profanity is not allowed!"
  const LocationError := "Unidentified location"
  const MapsPrefix := "https://google.com/maps?q="

  /** The server-to-client events. `createdAt` is the timestamp the message
    * factory stamps on the message. */
  datatype Event =
    | Message(username: string, text: string, createdAt: int)
    | LocationMessage(username: string, url: string, createdAt: int)
    | RoomData(room: string, users: seq<User>)

  /** One emit: the event and the sockets that receive it. */
  datatype Emit = Emit(to: set<string>, event: Event)

  /** The acknowledgement the client's callback receives: `callback()`,
    * `callback(error)`, or none at all because the handler threw. */
  datatype Ack = Acked | Refused(error: string) | Threw

  /** The private welcome: the user's name, the fixed text, the room. */
  function WelcomeText(username: string, room: string): (r: string)
    ensures username <= r
    ensures |r| == |username| + 1 + |WelcomeMsg| + 1 + |room| + 1
    ensures r[|r| - |room| - 1..] == room + "."
  {
    var r := username + " " + WelcomeMsg + " " + room + ".";
    assert r == username + (" " + WelcomeMsg + " " + room + ".");
    assert r == (username + " " + WelcomeMsg + " ") + (room + ".");
    r
  }

  /** The notice to the other members: the user's name and "joined room.". */
  function JoinedText(username: string): (r: string)
    ensures username <= r
    ensures r[|username|..] == " " + NewConnMsg
  {
    var r := username + " " + NewConnMsg;
    assert r == username + (" " + NewConnMsg);
    r
  }

  /** The departure notice: the user's name and "left room!". */
  function LeftText(username: string): (r: string)
    ensures username <= r
    ensures r[|username|..] == " " + DisConnMsg
  {
    var r := username + " " + DisConnMsg;
    assert r == username + (" " + DisConnMsg);
    r
  }

  /** A notice names exactly one user: different users get different
    * "joined" and "left" notices, and a "joined" notice is never a "left"
    * one. */
  lemma NoticesNameTheUser(a: string, b: string)
    ensures JoinedText(a) == JoinedText(b) ==> a == b
    ensures LeftText(a) == LeftText(b) ==> a == b
    ensures JoinedText(a) != LeftText(b)
  {
    var ja, jb, la, lb := JoinedText(a), JoinedText(b), LeftText(a), LeftText(b);
    if ja == jb {
      assert |a| == |b|;
      assert a == ja[..|a|] == jb[..|b|] == b;
    }
    if la == lb {
      assert |a| == |b|;
      assert a == la[..|a|] == lb[..|b|] == b;
    }
    assert ja[|ja| - 1] == ja[|a|..][|ja| - |a| - 1] == '.';
    assert lb[|lb| - 1] == lb[|b|..][|lb| - |b| - 1] == '!';
  }

  // ------------------------------------------------------------------
  // The map link of a location message
  // ------------------------------------------------------------------

  /** The link `sendLocation` builds from the two coordinates. */
  function MapUrl(latitude: string, longitude: string): (r: string)
    ensures MapsPrefix <= r
    ensures |r| == |MapsPrefix| + |latitude| + 1 + |longitude|
  {
    MapsPrefix + latitude + "," + longitude
  }

  /** The position of the first comma in `s`. */
  function FirstComma(s: string): (r: Option<nat>)
    ensures r.Some? ==> r.value < |s| && s[r.value] == ',' && ',' !in s[..r.value]
    ensures r.None? <==> ',' !in s
  {
    if s == [] then None
    else if s[0] == ',' then Some(0)
    else match FirstComma(s[1..])
      case None => None
      case Some(k) =>
        assert s[..k + 1] == [s[0]] + s[1..][..k];
        Some(k + 1)
  }

  /** Reads the two coordinates back out of a map link. */
  function ParseMapUrl(url: string): Option<(string, string)>
  {
    if |url| < |MapsPrefix| || url[..|MapsPrefix|] != MapsPrefix then None
    else
      var query := url[|MapsPrefix|..];
      match FirstComma(query)
        case None => None
        case Some(k) => Some((query[..k], query[k + 1..]))
  }

  /** The map link determines both coordinates as long as the latitude holds
    * no comma (the text of a number never does). */
  lemma MapUrlRoundTrip(latitude: string, longitude: string)
    requires ',' !in latitude
    ensures ParseMapUrl(MapUrl(latitude, longitude)) == Some((latitude, longitude))
  {
    var url := MapUrl(latitude, longitude);
    var query := latitude + "," + longitude;
    assert url == MapsPrefix + query;
    assert url[..|MapsPrefix|] == MapsPrefix;
    assert url[|MapsPrefix|..] == query;
    assert query[..|latitude|] == latitude;
    assert query[|latitude|] == ',';
    assert query[|latitude| + 1..] == longitude;
    var k := FirstComma(query);
    assert k == Some(|latitude|);
  }

  // ------------------------------------------------------------------
  // The handlers
  // ------------------------------------------------------------------

  /** `join`: register the socket; on failure acknowledge the registry's
    * error and emit nothing; on success welcome the joiner, tell the other
    * members, send the roster to the whole room and acknowledge. */
  method Join(reg: Registry, socket: string, username: string, room: string, now: int)
    returns (ack: Ack, emits: seq<Emit>)
    requires reg.Valid()
    modifies reg
    ensures reg.Valid()
    ensures Normalize(username) == [] || Normalize(room) == []
      ==> ack == Refused(RequiredError) && emits == [] && reg.users == old(reg.users)
    ensures Normalize(username) != [] && Normalize(room) != [] &&
      NameTaken(old(reg.users), Normalize(room), Normalize(username))
      ==> ack == Refused(InUseError) && emits == [] && reg.users == old(reg.users)
    ensures Normalize(username) != [] && Normalize(room) != [] &&
      !NameTaken(old(reg.users), Normalize(room), Normalize(username))
      ==> var name, key := Normalize(username), Normalize(room);
          var user := User(socket, name, key);
          && reg.users == old(reg.users) + [user]
          && InRoom(reg.users, key) == InRoom(old(reg.users), key) + [user]
          && socket in Members(reg.users, key)
          && ack == Acked
          && emits == [
               Emit({socket}, Message(Admin, WelcomeText(name, key), now)),
               Emit(Members(reg.users, key) - {socket}, Message(Admin, JoinedText(name), now)),
               Emit(Members(reg.users, key), RoomData(key, InRoom(reg.users, key)))]
  {
    var added := reg.AddUser(socket, username, room);
    if added.Failure? {
      return Refused(added.error), [];
    }
    var user := added.value;
    assert user == User(socket, Normalize(username), Normalize(room));
    NormalizeIdempotent(room);
    InRoomAppend(old(reg.users), [user], user.room);
    assert [user][1..] == [];
    // The registry does not change between the three emits, so one listing
    // serves both the broadcast and the roster.
    var roster := reg.GetUsersInRoom(user.room);
    var everyone := Ids(roster);
    var welcome := Emit({socket}, Message(Admin, WelcomeText(user.username, user.room), now));
    var notice := Emit(everyone - {socket}, Message(Admin, JoinedText(user.username), now));
    var update := Emit(everyone, RoomData(user.room, roster));
    emits := [welcome, notice, update];
    ack := Acked;
  }

  /** `disconnect`: remove the socket's record; if there was one, tell the
    * remaining members of its room and send them the new roster. */
  method Disconnect(reg: Registry, socket: string, now: int) returns (emits: seq<Emit>)
    requires reg.Valid()
    modifies reg
    ensures reg.Valid()
    ensures match FirstIndex(old(reg.users), socket)
      case None => emits == [] && reg.users == old(reg.users)
      case Some(k) =>
        var user := old(reg.users)[k];
        && reg.users == old(reg.users)[..k] + old(reg.users)[k + 1..]
        && emits == [
             Emit(Members(reg.users, user.room), Message(Admin, LeftText(user.username), now)),
             Emit(Members(reg.users, user.room), RoomData(user.room, InRoom(reg.users, user.room)))]
    ensures IdsDistinct(old(reg.users)) ==> forall e :: e in emits ==> socket !in e.to
  {
    ghost var before := reg.users;
    var removed := reg.RemoveUser(socket);
    if removed.None? {
      return [];
    }
    var user := removed.value;
    ghost var k := FirstIndex(before, socket).value;
    assert user == before[k];
    assert reg.users == before[..k] + before[k + 1..];
    NormalizeFixpoint(user.room);
    var roster := reg.GetUsersInRoom(user.room);
    assert roster == InRoom(reg.users, user.room);
    var remaining := Ids(roster);
    emits := [Emit(remaining, Message(Admin, LeftText(user.username), now)),
              Emit(remaining, RoomData(user.room, roster))];
    if IdsDistinct(before) {
      RemovedIsNoMember(before, k, user.room);
      assert socket !in remaining;
    }
  }

  /** `sendMessage`: a profane text is refused; otherwise the text goes to
    * the whole of the sender's room, sender included, under the sender's
    * name. An unregistered sender makes the handler throw. */
  method SendMessage(reg: Registry, socket: string, text: string, isProfane: string -> bool, now: int)
    returns (ack: Ack, emits: seq<Emit>)
    ensures isProfane(text) ==> ack == Refused(ProfanityError) && emits == []
    ensures !isProfane(text) ==> match FirstIndex(reg.users, socket)
      case None => ack == Threw && emits == []
      case Some(k) =>
        var user := reg.users[k];
        ack == Acked && emits == [Emit(Members(reg.users, user.room), Message(user.username, text, now))]
    ensures ack == Acked ==> |emits| == 1 && socket in emits[0].to
  {
    if isProfane(text) {
      return Refused(ProfanityError), [];
    }
    var found := reg.GetUser(socket);
    if found.None? {
      return Threw, [];
    }
    var user := found.value;
    var everyone := SenderRoom(reg, user);
    emits := [Emit(everyone, Message(user.username, text, now))];
    ack := Acked;
  }

  /** `sendLocation`: a blank coordinate is refused; otherwise a map link
    * goes to the whole of the sender's room. An unregistered sender makes
    * the handler throw. */
  method SendLocation(reg: Registry, socket: string, latitude: string, longitude: string, now: int)
    returns (ack: Ack, emits: seq<Emit>)
    ensures latitude == [] || longitude == [] ==> ack == Refused(LocationError) && emits == []
    ensures latitude != [] && longitude != [] ==> match FirstIndex(reg.users, socket)
      case None => ack == Threw && emits == []
      case Some(k) =>
        var user := reg.users[k];
        ack == Acked &&
        emits == [Emit(Members(reg.users, user.room), LocationMessage(user.username, MapUrl(latitude, longitude), now))]
    ensures ack == Acked ==> |emits| == 1 && socket in emits[0].to
  {
    if latitude == "" || longitude == "" {
      return Refused(LocationError), [];
    }
    var found := reg.GetUser(socket);
    if found.None? {
      return Threw, [];
    }
    var user := found.value;
    var everyone := SenderRoom(reg, user);
    emits := [Emit(everyone, LocationMessage(user.username, MapUrl(latitude, longitude), now))];
    ack := Acked;
  }

  /** The sockets of a registered sender's room (`io.to(user.room)`), which
    * include the sender. */
  method SenderRoom(reg: Registry, user: User) returns (everyone: set<string>)
    requires user in reg.users
    ensures everyone == Members(reg.users, user.room)
    ensures user.id in everyone
  {
    // `io.to` takes the stored room as it is.
    everyone := Ids(InRoom(reg.users, user.room));
    InRoomComplete(reg.users, user.room, user);
  }
}
