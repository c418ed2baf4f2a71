/**
  * A client of the handlers: two sockets join one room, one talks, one
  * leaves. Names are kept symbolic (any two distinct normal names); every
  * assertion follows from the handlers' contracts alone.
  */
module Scenario {
  import opened Wrappers
  import opened Text
  import opened Users
  import opened Server

  /** A non-empty name that normalisation leaves as it is. */
  predicate GoodName(s: string)
  {
    s != [] && IsNormal(s)
  }

  /** The first socket joins the empty room: only the welcome reaches
    * anyone, and only the joiner. */
  method FirstJoin(a: string, alice: string, lobby: string) returns (reg: Registry)
    requires GoodName(alice) && GoodName(lobby)
    ensures fresh(reg) && reg.Valid() && reg.users == [User(a, alice, lobby)]
  {
    reg := new Registry();
    NormalizeFixpoint(alice);
    NormalizeFixpoint(lobby);
    var ack, emits := Join(reg, a, alice, lobby, 1);
    assert ack == Acked;
    assert InRoom(reg.users, lobby) == [User(a, alice, lobby)];
    assert emits[0].to == {a};
    assert emits[1].to == {};
  }

  /** The second socket joins: the first hears the notice, both get the
    * roster in join order. */
  method SecondJoin(reg: Registry, a: string, b: string, alice: string, bob: string, lobby: string)
    requires GoodName(alice) && GoodName(bob) && GoodName(lobby)
    requires a != b && alice != bob
    requires reg.Valid() && reg.users == [User(a, alice, lobby)]
    modifies reg
    ensures reg.Valid() && reg.users == [User(a, alice, lobby), User(b, bob, lobby)]
  {
    NormalizeFixpoint(bob);
    NormalizeFixpoint(lobby);
    assert !NameTaken(reg.users, lobby, bob) by {
      assert !Holds(reg.users[0], lobby, bob);
    }
    ghost var first := reg.users;
    var ack, emits := Join(reg, b, bob, lobby, 2);
    assert ack == Acked;
    var roster := [User(a, alice, lobby), User(b, bob, lobby)];
    assert InRoom(first, lobby) == first;
    assert InRoom(reg.users, lobby) == roster;
    assert a in emits[1].to && b !in emits[1].to;
    assert emits[2].event == RoomData(lobby, roster);
    assert a in emits[2].to && b in emits[2].to;
  }

  /** The same name is refused in the same room, and nothing is sent. */
  method CopycatRefused(reg: Registry, a: string, c: string, alice: string, lobby: string)
    requires GoodName(alice) && GoodName(lobby)
    requires reg.Valid() && reg.users == [User(a, alice, lobby)]
    modifies reg
    ensures reg.users == old(reg.users)
  {
    NormalizeFixpoint(alice);
    NormalizeFixpoint(lobby);
    assert NameTaken(reg.users, lobby, alice) by {
      assert Holds(reg.users[0], lobby, alice);
    }
    var ack, emits := Join(reg, c, alice, lobby, 3);
    assert ack == Refused(InUseError) && emits == [];
  }

  /** A clean message reaches both members under the sender's name; a
    * profane one and a blank location reach no one. */
  method FirstTalks(reg: Registry, a: string, b: string, alice: string, bob: string, lobby: string,
                    text: string, isProfane: string -> bool)
    requires a != b && !isProfane(text)
    requires reg.users == [User(a, alice, lobby), User(b, bob, lobby)]
  {
    var ack, emits := SendMessage(reg, a, text, isProfane, 4);
    assert ack == Acked && emits[0].event == Message(alice, text, 4);
    assert InRoom(reg.users, lobby) == reg.users;
    assert b in emits[0].to;
    var bad := "darn";
    ack, emits := SendMessage(reg, a, bad, t => t == bad, 5);
    assert ack == Refused(ProfanityError) && emits == [];
    ack, emits := SendLocation(reg, a, "", "7", 6);
    assert ack == Refused(LocationError) && emits == [];
  }

  /** The second socket leaves: the first hears the departure, then gets the
    * roster without it; a second disconnect is silent. */
  method SecondLeaves(reg: Registry, a: string, b: string, alice: string, bob: string, lobby: string)
    requires a != b
    requires reg.Valid() && reg.users == [User(a, alice, lobby), User(b, bob, lobby)]
    modifies reg
    ensures reg.Valid() && reg.users == [User(a, alice, lobby)]
  {
    assert FirstIndex(reg.users, b) == Some(1) by {
      FirstIndexUnique(reg.users, b, 1);
    }
    var emits := Disconnect(reg, b, 7);
    assert reg.users == [User(a, alice, lobby)];
    assert InRoom(reg.users, lobby) == reg.users;
    assert emits[0].event == Message(Admin, LeftText(bob), 7);
    assert emits[1].event == RoomData(lobby, reg.users);
    assert a in emits[1].to && b !in emits[1].to;
    emits := Disconnect(reg, b, 8);
    assert emits == [];
  }
}
