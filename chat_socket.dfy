/** The live chat relay of `backend/livechat/chat.socket.js`: connect-time
    authentication, the connection registry (`userSockets`, `adminSockets`), the
    set of users who have written (`activeUsers`), message relay and the roster
    pushed to admins. Emissions are appended to an output log instead of being
    written to sockets. */
module ChatSocket {
  import opened Wrappers
  import opened Seqs
  import opened ChatStore

  /** socket.io connection ids are never empty, so a mapped id is always truthy. */
  type SocketId = s: string | |s| > 0 witness "socket"

  /** The decoded token: `{ userId, name, role }`. */
  datatype Claims = Claims(userId: int, name: string, role: string)

  predicate IsAdmin(c: Claims) {
    c.role == "admin"
  }

  /** An accepted connection: its id and the claims stored on `socket.user`. */
  datatype Connection = Connection(socket: SocketId, user: Claims)

  datatype AuthError = NoToken | InvalidToken

  /** The `chatMessage` payload as the client sends it; any field may be missing. */
  datatype Payload = Payload(senderId: Option<int>, receiverId: Option<int>, message: Option<string>)

  datatype Event = ChatMessageEvent(msg: ChatMessage) | UserListEvent(users: seq<UserRow>)

  /** `io.to(socket).emit(event)`. */
  datatype Emission = Emission(to: SocketId, event: Event)

  /** The connect middleware. `verify` stands for `jwt.verify` with the server secret:
      `Some(claims)` for a token whose signature and expiry check out, `None` otherwise. */
  function Authenticate(token: Option<string>, verify: string -> Option<Claims>): (r: Result<Claims, AuthError>)
    ensures token.None? || token.value == "" ==> r == Failure(NoToken)
    ensures token.Some? && token.value != "" && verify(token.value).None? ==> r == Failure(InvalidToken)
    ensures token.Some? && token.value != "" && verify(token.value).Some? ==> r == Success(verify(token.value).value)
    ensures r.Success? ==> token.Some? && verify(token.value) == Some(r.value)
  {
    if token.None? || token.value == "" then Failure(NoToken)
    else match verify(token.value)
      case None => Failure(InvalidToken)
      case Some(claims) => Success(claims)
  }

  /** `User.findAll({ where: { id: [...activeUsers] } })` projected to `{id, name}`:
      the directory rows whose id is active, in directory order. */
  function Roster(directory: seq<UserRow>, active: set<int>): (r: seq<UserRow>)
    ensures forall i :: 0 <= i < |r| ==> r[i] in directory && r[i].id in active
    ensures forall i :: 0 <= i < |directory| && directory[i].id in active ==> directory[i] in r
    ensures NoDuplicates(directory) ==> NoDuplicates(r)
    ensures IsSubsequence(r, directory)
  {
    FilterNoDuplicates(directory, (u: UserRow) => u.id in active);
    FilterIsSubsequence(directory, (u: UserRow) => u.id in active);
    Filter(directory, (u: UserRow) => u.id in active)
  }

  /** One emission of `ev` to each socket of `targets`, in order. */
  function Broadcast(targets: seq<SocketId>, ev: Event): (r: seq<Emission>)
    ensures |r| == |targets|
    ensures forall i :: 0 <= i < |r| ==> r[i] == Emission(targets[i], ev)
  {
    seq(|targets|, i requires 0 <= i < |targets| => Emission(targets[i], ev))
  }

  /** How many emissions of `es` go to socket `s`. */
  function CountTo(es: seq<Emission>, s: SocketId): nat {
    if es == [] then 0 else (if es[0].to == s then 1 else 0) + CountTo(es[1..], s)
  }

  /** What `sendUpdatedUserListToAdmins` emits: the roster once to every admin, or
      nothing when the directory lookup throws (the error is caught and logged). */
  function RosterPush(admins: seq<SocketId>, active: set<int>, directory: seq<UserRow>, lookupOk: bool): (r: seq<Emission>)
    ensures |r| == if lookupOk then |admins| else 0
    ensures forall i :: 0 <= i < |r| ==> r[i] == Emission(admins[i], UserListEvent(Roster(directory, active)))
  {
    if lookupOk then Broadcast(admins, UserListEvent(Roster(directory, active))) else []
  }

  /** The delivery step of the `chatMessage` handler: an admin's message goes to the one
      socket mapped to its receiver, if any; a user's message goes to every admin. */
  function Route(sender: Claims, m: ChatMessage, userSockets: map<int, SocketId>, admins: seq<SocketId>): (r: seq<Emission>)
    ensures forall i :: 0 <= i < |r| ==> r[i].event == ChatMessageEvent(m)
    ensures IsAdmin(sender) ==> |r| <= 1
    ensures !IsAdmin(sender) ==> |r| == |admins|
    ensures !IsAdmin(sender) ==> forall i :: 0 <= i < |r| ==> r[i].to == admins[i]
    ensures IsAdmin(sender) ==> forall i :: 0 <= i < |r| ==> m.receiverId in userSockets && r[i].to == userSockets[m.receiverId]
  {
    if IsAdmin(sender) then
      if m.receiverId in userSockets then [Emission(userSockets[m.receiverId], ChatMessageEvent(m))] else []
    else
      Broadcast(admins, ChatMessageEvent(m))
  }

  /** A broadcast over duplicate-free targets reaches each target exactly once and
      nothing else. */
  lemma {:induction false} BroadcastReachesEachOnce(targets: seq<SocketId>, ev: Event, s: SocketId)
    requires NoDuplicates(targets)
    ensures CountTo(Broadcast(targets, ev), s) == if s in targets then 1 else 0
  {
    if targets != [] {
      assert Broadcast(targets, ev)[1..] == Broadcast(targets[1..], ev);
      BroadcastReachesEachOnce(targets[1..], ev, s);
      assert targets[0] !in targets[1..];
      assert s in targets <==> s == targets[0] || s in targets[1..];
    }
  }

  /** An admin-sent message is delivered once to the receiver's socket when the receiver
      is mapped, and to no socket otherwise. */
  lemma AdminMessageDelivery(sender: Claims, m: ChatMessage, userSockets: map<int, SocketId>, admins: seq<SocketId>, s: SocketId)
    requires IsAdmin(sender)
    ensures |Route(sender, m, userSockets, admins)| == if m.receiverId in userSockets then 1 else 0
    ensures CountTo(Route(sender, m, userSockets, admins), s) ==
            if m.receiverId in userSockets && userSockets[m.receiverId] == s then 1 else 0
  {
    var r := Route(sender, m, userSockets, admins);
    if r != [] {
      assert r[1..] == [];
    }
  }

  /** A user-sent message is delivered once to every admin socket and to no other
      socket; with duplicate-free admin sockets it makes exactly `|admins|` emissions. */
  lemma UserMessageDelivery(sender: Claims, m: ChatMessage, userSockets: map<int, SocketId>, admins: seq<SocketId>, s: SocketId)
    requires !IsAdmin(sender) && NoDuplicates(admins)
    ensures |Route(sender, m, userSockets, admins)| == |admins|
    ensures CountTo(Route(sender, m, userSockets, admins), s) == if s in admins then 1 else 0
  {
    BroadcastReachesEachOnce(admins, ChatMessageEvent(m), s);
  }

  /** The roster reaches every admin socket once and no user socket. */
  lemma RosterPushReachesAdminsOnly(admins: seq<SocketId>, active: set<int>, directory: seq<UserRow>, lookupOk: bool, s: SocketId)
    requires NoDuplicates(admins)
    ensures CountTo(RosterPush(admins, active, directory, lookupOk), s) == if lookupOk && s in admins then 1 else 0
    ensures forall i :: 0 <= i < |RosterPush(admins, active, directory, lookupOk)| ==>
      RosterPush(admins, active, directory, lookupOk)[i].event == UserListEvent(Roster(directory, active))
  {
    if lookupOk {
      BroadcastReachesEachOnce(admins, UserListEvent(Roster(directory, active)), s);
    }
  }

  /** `adminSockets.delete(s)`. */
  function Remove(xs: seq<SocketId>, x: SocketId): (r: seq<SocketId>)
    ensures x !in r
    ensures forall i :: 0 <= i < |r| ==> r[i] in xs
    ensures forall i :: 0 <= i < |xs| && xs[i] != x ==> xs[i] in r
    ensures NoDuplicates(xs) ==> NoDuplicates(r)
  {
    FilterNoDuplicates(xs, (y: SocketId) => y != x);
    Filter(xs, (y: SocketId) => y != x)
  }

  /** Deleting a socket that is not there changes nothing. */
  lemma RemoveAbsent(xs: seq<SocketId>, x: SocketId)
    requires x !in xs
    ensures Remove(xs, x) == xs
  {
    FilterAll(xs, (y: SocketId) => y != x);
  }

  /** The registry, presence set and output log of one relay. */
  class Relay {
    var userSockets: map<int, SocketId>
    var adminSockets: seq<SocketId>
    var activeUsers: set<int>
    var log: seq<Emission>
    const store: MessageStore
    /** Every socket id that has ever connected; socket.io never reuses one. */
    ghost var connected: set<SocketId>

    /** The JavaScript `Set` semantics of `adminSockets`, and no socket is both an
        admin's and a user's. */
    ghost predicate Valid()
      reads this
    {
      && NoDuplicates(adminSockets)
      && (forall i :: 0 <= i < |adminSockets| ==> adminSockets[i] in connected)
      && (forall u :: u in userSockets ==> userSockets[u] in connected && userSockets[u] !in adminSockets)
    }

    constructor (store: MessageStore)
      ensures Valid() && this.store == store
      ensures userSockets == map[] && adminSockets == [] && activeUsers == {} && log == [] && connected == {}
    {
      this.store := store;
      userSockets := map[];
      adminSockets := [];
      activeUsers := {};
      log := [];
      connected := {};
    }

    /** `adminSockets.forEach(id => io.to(id).emit(...))`. */
    method EmitToAdmins(ev: Event)
      modifies this`log
      ensures log == old(log) + Broadcast(adminSockets, ev)
    {
      var i := 0;
      while i < |adminSockets|
        invariant 0 <= i <= |adminSockets|
        invariant log == old(log) + Broadcast(adminSockets[..i], ev)
      {
        log := log + [Emission(adminSockets[i], ev)];
        i := i + 1;
      }
      assert adminSockets[..i] == adminSockets;
    }

    /** `sendUpdatedUserListToAdmins`; `lookupOk` is whether `User.findAll` resolves. */
    method SendUserListToAdmins(directory: seq<UserRow>, lookupOk: bool)
      modifies this`log
      ensures log == old(log) + RosterPush(adminSockets, activeUsers, directory, lookupOk)
    {
      if lookupOk {
        var userList := Roster(directory, activeUsers);
        EmitToAdmins(UserListEvent(userList));
      }
    }

    /** The state change of the `connection` handler, stated for `Register` and `Connect`. */
    twostate predicate Registered(conn: Connection, directory: seq<UserRow>, lookupOk: bool)
      reads this
    {
      && Valid()
      && connected == old(connected) + {conn.socket}
      && activeUsers == old(activeUsers)
      && (IsAdmin(conn.user) ==>
            && adminSockets == old(adminSockets) + [conn.socket]
            && userSockets == old(userSockets)
            && log == old(log) + RosterPush(adminSockets, activeUsers, directory, lookupOk))
      && (!IsAdmin(conn.user) ==>
            && userSockets == old(userSockets)[conn.user.userId := conn.socket]
            && adminSockets == old(adminSockets)
            && log == old(log))
    }

    /** The `connection` handler: an admin's socket joins `adminSockets` and triggers one
        roster push; a user's socket replaces any earlier mapping of its user id. */
    method Register(conn: Connection, directory: seq<UserRow>, lookupOk: bool)
      requires Valid() && conn.socket !in connected
      modifies this
      ensures Registered(conn, directory, lookupOk)
    {
      connected := connected + {conn.socket};
      if IsAdmin(conn.user) {
        adminSockets := adminSockets + [conn.socket];
        SendUserListToAdmins(directory, lookupOk);
      } else {
        userSockets := userSockets[conn.user.userId := conn.socket];
      }
    }

    /** A connection attempt: the middleware runs first, and registration happens only
        when it accepts; a refused attempt leaves every piece of state as it was. */
    method Connect(socket: SocketId, token: Option<string>, verify: string -> Option<Claims>,
                   directory: seq<UserRow>, lookupOk: bool) returns (r: Result<Connection, AuthError>)
      requires Valid() && socket !in connected
      modifies this
      ensures r.Failure? <==> Authenticate(token, verify).Failure?
      ensures r.Failure? ==> r.error == Authenticate(token, verify).error && unchanged(this)
      ensures r.Success? ==> r.value == Connection(socket, Authenticate(token, verify).value)
      ensures r.Success? ==> Registered(r.value, directory, lookupOk)
    {
      match Authenticate(token, verify)
      case Failure(e) =>
        r := Failure(e);
      case Success(claims) =>
        var conn := Connection(socket, claims);
        Register(conn, directory, lookupOk);
        r := Success(conn);
    }

    /** The `chatMessage` handler. The record is saved first; if saving throws, nothing is
        emitted and `activeUsers` is untouched. After a save, a non-admin sender's payload
        `senderId` becomes active and the roster is pushed, then the message is routed. */
    method OnChatMessage(conn: Connection, payload: Payload, now: int, saveOk: bool,
                         directory: seq<UserRow>, lookupOk: bool)
      requires Valid()
      modifies this, store
      ensures Valid() && connected == old(connected)
      ensures userSockets == old(userSockets) && adminSockets == old(adminSockets)
      ensures var rec := NewRecord(payload.senderId, payload.receiverId, payload.message, now);
              var saved := rec.Some? && saveOk;
              && store.messages == (if saved then old(store.messages) + [rec.value] else old(store.messages))
              && (!saved ==> activeUsers == old(activeUsers) && log == old(log))
              && (saved && !IsAdmin(conn.user) ==>
                    && activeUsers == old(activeUsers) + {rec.value.senderId}
                    && log == old(log) + RosterPush(adminSockets, activeUsers, directory, lookupOk)
                                       + Route(conn.user, rec.value, userSockets, adminSockets))
              && (saved && IsAdmin(conn.user) ==>
                    && activeUsers == old(activeUsers)
                    && log == old(log) + Route(conn.user, rec.value, userSockets, adminSockets))
    {
      var rec := NewRecord(payload.senderId, payload.receiverId, payload.message, now);
      if rec.None? {
        return;
      }
      var m := rec.value;
      var saved := store.Save(m, saveOk);
      if !saved {
        return;
      }
      if !IsAdmin(conn.user) {
        activeUsers := activeUsers + {m.senderId};
        SendUserListToAdmins(directory, lookupOk);
      }
      if IsAdmin(conn.user) {
        if m.receiverId in userSockets {
          var target := userSockets[m.receiverId];
          log := log + [Emission(target, ChatMessageEvent(m))];
        }
      } else {
        EmitToAdmins(ChatMessageEvent(m));
      }
    }

    /** The `getUserList` handler: an admin's request pushes the roster; anyone else's is ignored. */
    method OnGetUserList(conn: Connection, directory: seq<UserRow>, lookupOk: bool)
      modifies this`log
      ensures IsAdmin(conn.user) ==> log == old(log) + RosterPush(adminSockets, activeUsers, directory, lookupOk)
      ensures !IsAdmin(conn.user) ==> log == old(log)
    {
      if IsAdmin(conn.user) {
        SendUserListToAdmins(directory, lookupOk);
      }
    }

    /** The `disconnect` handler. An admin's socket leaves `adminSockets`; for a user the
        mapping of its user id is deleted whatever socket it points at now. */
    method OnDisconnect(conn: Connection)
      requires Valid()
      modifies this`userSockets, this`adminSockets
      ensures Valid()
      ensures IsAdmin(conn.user) ==>
        adminSockets == Remove(old(adminSockets), conn.socket) && userSockets == old(userSockets)
      ensures !IsAdmin(conn.user) ==>
        userSockets == old(userSockets) - {conn.user.userId} && adminSockets == old(adminSockets)
      ensures IsAdmin(conn.user) && conn.socket !in old(adminSockets) ==> adminSockets == old(adminSockets)
      ensures !IsAdmin(conn.user) && conn.user.userId !in old(userSockets) ==> userSockets == old(userSockets)
    {
      if IsAdmin(conn.user) {
        if conn.socket !in adminSockets {
          RemoveAbsent(adminSockets, conn.socket);
        }
        adminSockets := Remove(adminSockets, conn.socket);
      } else {
        userSockets := userSockets - {conn.user.userId};
      }
    }

    /** Disconnect cleanup that leaves a user's mapping alone once a newer socket of the
        same user has replaced it. */
    method OnDisconnectGuarded(conn: Connection)
      requires Valid()
      modifies this`userSockets, this`adminSockets
      ensures Valid()
      ensures IsAdmin(conn.user) ==>
        adminSockets == Remove(old(adminSockets), conn.socket) && userSockets == old(userSockets)
      ensures !IsAdmin(conn.user) ==> adminSockets == old(adminSockets)
      ensures !IsAdmin(conn.user) && conn.user.userId in old(userSockets) && old(userSockets)[conn.user.userId] == conn.socket ==>
        userSockets == old(userSockets) - {conn.user.userId}
      ensures !IsAdmin(conn.user) && !(conn.user.userId in old(userSockets) && old(userSockets)[conn.user.userId] == conn.socket) ==>
        userSockets == old(userSockets)
    {
      if IsAdmin(conn.user) {
        adminSockets := Remove(adminSockets, conn.socket);
      } else if conn.user.userId in userSockets && userSockets[conn.user.userId] == conn.socket {
        userSockets := userSockets - {conn.user.userId};
      }
    }
  }
}
