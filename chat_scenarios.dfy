/** Concrete runs of the relay, each derived from the handlers' contracts alone. */
module ChatScenarios {
  import opened Wrappers
  import opened ChatStore
  import opened ChatSocket

  /** User 42 ("Ana") connects and writes "hi" to the nominal admin id 1 at time 1000,
      with no admin connected. */
  method UserWritesAlone(store: MessageStore, directory: seq<UserRow>) returns (relay: Relay)
    requires store.messages == []
    modifies store
    ensures fresh(relay) && relay.Valid() && relay.store == store
    ensures store.messages == [ChatMessage(42, 1, "hi", 1000)]
    ensures relay.adminSockets == [] && relay.log == [] && relay.activeUsers == {42}
    ensures relay.connected == {"user-42"}
  {
    relay := new Relay(store);
    var user := Connection("user-42", Claims(42, "Ana", "user"));
    relay.Register(user, directory, true);
    relay.OnChatMessage(user, Payload(Some(42), Some(1), Some("hi")), 1000, true, directory, true);
  }

  /** A user (id 42) writes to the nominal admin id 1 while no admin is connected: the
      message is stored, nobody receives it live and 42 becomes active. An admin who
      connects afterwards is sent the roster holding 42 at once. */
  method UserWritesBeforeAnyAdmin() returns (stored: seq<ChatMessage>, liveDeliveries: nat, active: set<int>, afterAdminJoins: seq<Emission>)
    ensures stored == [ChatMessage(42, 1, "hi", 1000)]
    ensures liveDeliveries == 0 && active == {42}
    ensures afterAdminJoins == [Emission("admin-1", UserListEvent([UserRow(42, "Ana")]))]
  {
    var store := new MessageStore();
    var directory := [UserRow(1, "Support"), UserRow(42, "Ana")];
    var relay := UserWritesAlone(store, directory);
    stored := store.messages;
    liveDeliveries := |relay.log|;
    active := relay.activeUsers;
    var admin := Connection("admin-1", Claims(1, "Support", "admin"));
    relay.Register(admin, directory, true);
    assert directory[1..] == [UserRow(42, "Ana")] && directory[1..][1..] == [];
    assert Roster(directory, {42}) == [UserRow(42, "Ana")];
    afterAdminJoins := relay.log;
  }

  /** Three admins `a1`, `a2`, `a3` connect, then user 9 on `u9`, while the directory is
      unreachable: no roster push is emitted. */
  method ConnectThreeAdminsAndUser(store: MessageStore) returns (relay: Relay)
    ensures fresh(relay) && relay.Valid() && relay.store == store
    ensures relay.adminSockets == ["a1", "a2", "a3"] && relay.userSockets == map[9 := "u9"]
    ensures relay.log == []
  {
    relay := new Relay(store);
    relay.Register(Connection("a1", Claims(1, "Ada", "admin")), [], false);
    assert relay.adminSockets == ["a1"] && relay.connected == {"a1"};
    assert relay.userSockets == map[] && relay.log == [];
    relay.Register(Connection("a2", Claims(2, "Bo", "admin")), [], false);
    assert relay.adminSockets == ["a1", "a2"] && relay.connected == {"a1", "a2"};
    assert relay.userSockets == map[] && relay.log == [];
    relay.Register(Connection("a3", Claims(3, "Cy", "admin")), [], false);
    assert relay.adminSockets == ["a1", "a2", "a3"] && relay.connected == {"a1", "a2", "a3"};
    assert relay.userSockets == map[] && relay.log == [];
    relay.Register(Connection("u9", Claims(9, "Dee", "user")), [], false);
  }

  /** A user's message routed to the admin sockets `a1`, `a2` and `a3` reaches each of them
      once and the user socket `u9` never. */
  lemma FanOutToThreeAdmins(sender: Claims, m: ChatMessage, userSockets: map<int, SocketId>, log: seq<Emission>)
    requires !IsAdmin(sender) && log == Route(sender, m, userSockets, ["a1", "a2", "a3"])
    ensures |log| == 3 && CountTo(log, "u9") == 0
    ensures CountTo(log, "a1") == 1 && CountTo(log, "a2") == 1 && CountTo(log, "a3") == 1
  {
    var admins: seq<SocketId> := ["a1", "a2", "a3"];
    UserMessageDelivery(sender, m, userSockets, admins, "a1");
    UserMessageDelivery(sender, m, userSockets, admins, "a2");
    UserMessageDelivery(sender, m, userSockets, admins, "a3");
    UserMessageDelivery(sender, m, userSockets, admins, "u9");
  }

  /** Three admins and one user are connected; the user's message is emitted exactly
      three times, once per admin socket, and never to the user's own socket. The
      directory is unreachable throughout, which suppresses every roster push but
      not the delivery. */
  method ThreeAdminsOneUser() returns (emitted: nat, perAdmin: seq<nat>, toUser: nat)
    ensures emitted == 3 && perAdmin == [1, 1, 1] && toUser == 0
  {
    var store := new MessageStore();
    var relay := ConnectThreeAdminsAndUser(store);
    var u := Connection("u9", Claims(9, "Dee", "user"));
    relay.OnChatMessage(u, Payload(Some(9), Some(1), Some("help")), 5, true, [], false);
    var m := ChatMessage(9, 1, "help", 5);
    var admins: seq<SocketId> := ["a1", "a2", "a3"];
    assert relay.log == Route(u.user, m, relay.userSockets, admins);
    FanOutToThreeAdmins(u.user, m, relay.userSockets, relay.log);
    emitted := |relay.log|;
    perAdmin := [CountTo(relay.log, "a1"), CountTo(relay.log, "a2"), CountTo(relay.log, "a3")];
    toUser := CountTo(relay.log, "u9");
  }

  /** User 7 connects on socket `old`, reconnects on `new` while `old` is still open, and
      then `old` closes. As written, the close deletes the mapping of user 7, so an
      admin's reply is stored but reaches neither socket. */
  method StaleDisconnectDropsLiveUser() returns (stored: nat, delivered: nat)
    ensures stored == 1 && delivered == 0
  {
    var store := new MessageStore();
    var relay := new Relay(store);
    var first := Connection("old", Claims(7, "Eve", "user"));
    var second := Connection("new", Claims(7, "Eve", "user"));
    var admin := Connection("adm", Claims(1, "Support", "admin"));
    relay.Register(first, [], false);
    relay.Register(second, [], false);
    relay.Register(admin, [], false);
    relay.OnDisconnect(first);
    relay.OnChatMessage(admin, Payload(Some(1), Some(7), Some("hello")), 10, true, [], false);
    stored := |store.messages|;
    delivered := |relay.log|;
  }

  /** The same run with the guarded cleanup: the close of the superseded socket leaves
      the newer mapping in place and the reply reaches socket `new`. */
  method GuardedDisconnectKeepsLiveUser() returns (stored: nat, delivered: seq<Emission>)
    ensures stored == 1
    ensures delivered == [Emission("new", ChatMessageEvent(ChatMessage(1, 7, "hello", 10)))]
  {
    var store := new MessageStore();
    var relay := new Relay(store);
    var first := Connection("old", Claims(7, "Eve", "user"));
    var second := Connection("new", Claims(7, "Eve", "user"));
    var admin := Connection("adm", Claims(1, "Support", "admin"));
    relay.Register(first, [], false);
    relay.Register(second, [], false);
    relay.Register(admin, [], false);
    relay.OnDisconnectGuarded(first);
    relay.OnChatMessage(admin, Payload(Some(1), Some(7), Some("hello")), 10, true, [], false);
    stored := |store.messages|;
    delivered := relay.log;
  }
}
