/** The REST side of the chat (`backend/livechat/chat.routes.js`): the conversation
    history query, the partner list for admins, and the POST that stores a message
    without a live connection. */
module ChatRoutes {
  import opened Wrappers
  import opened Seqs
  import opened Js
  import opened Http
  import opened ChatStore
  import opened ChatSocket

  /** The admin id a non-admin caller always talks to. */
  const DefaultAdminId := 1
  /** `.limit(100)`. */
  const MessageLimit := 100

  predicate Between(m: ChatMessage, a: int, b: int) {
    (m.senderId == a && m.receiverId == b) || (m.senderId == b && m.receiverId == a)
  }

  predicate SortedByTime(s: seq<ChatMessage>) {
    forall i, j :: 0 <= i < j < |s| ==> s[i].timestamp <= s[j].timestamp
  }

  /** A message no later than the head of a sorted thread can be put in front of it. */
  lemma SortedCons(x: ChatMessage, s: seq<ChatMessage>)
    requires SortedByTime(s) && (s == [] || x.timestamp <= s[0].timestamp)
    ensures SortedByTime([x] + s)
  {
    var r := [x] + s;
    forall i, j | 0 <= i < j < |r| ensures r[i].timestamp <= r[j].timestamp {
      assert r[j] == s[j - 1];
      if i > 0 {
        assert r[i] == s[i - 1];
      }
    }
  }

  function InsertByTime(m: ChatMessage, s: seq<ChatMessage>): (r: seq<ChatMessage>)
    requires SortedByTime(s)
    ensures |r| == |s| + 1
    ensures r[0] == m || (|s| > 0 && r[0] == s[0])
    ensures SortedByTime(r)
    ensures multiset(r) == multiset(s) + multiset{m}
  {
    if s == [] || m.timestamp <= s[0].timestamp then
      [m] + s
    else
      var rest := InsertByTime(m, s[1..]);
      InsertBehindHead(m, s, rest);
      [s[0]] + rest
  }

  /** The recursive step of `InsertByTime`: a message later than the head goes into the
      tail, and the head stays in front. */
  lemma InsertBehindHead(m: ChatMessage, s: seq<ChatMessage>, rest: seq<ChatMessage>)
    requires s != [] && SortedByTime(s) && s[0].timestamp < m.timestamp
    requires SortedByTime(rest) && |rest| == |s|
    requires rest[0] == m || (|s| > 1 && rest[0] == s[1])
    requires multiset(rest) == multiset(s[1..]) + multiset{m}
    ensures SortedByTime([s[0]] + rest)
    ensures multiset([s[0]] + rest) == multiset(s) + multiset{m}
  {
    SortedCons(s[0], rest);
    assert s == [s[0]] + s[1..];
  }

  /** `.sort({ timestamp: 1 })`: ascending by timestamp, the same messages. */
  function SortByTime(s: seq<ChatMessage>): (r: seq<ChatMessage>)
    ensures |r| == |s|
    ensures SortedByTime(r)
    ensures multiset(r) == multiset(s)
  {
    if s == [] then []
    else
      assert s == [s[0]] + s[1..];
      InsertByTime(s[0], SortByTime(s[1..]))
  }

  /** `.sort({ timestamp: 1 }).limit(limit)`: the earliest `limit` messages, oldest first.
      Every message left out is at least as late as every message kept. */
  function Earliest(s: seq<ChatMessage>, limit: nat): (r: seq<ChatMessage>)
    ensures |r| == if |s| < limit then |s| else limit
    ensures SortedByTime(r)
    ensures multiset(r) <= multiset(s)
    ensures forall x, i :: x in multiset(s) - multiset(r) && 0 <= i < |r| ==> r[i].timestamp <= x.timestamp
  {
    var sorted := SortByTime(s);
    var k := if |s| < limit then |s| else limit;
    SortedPrefixIsEarliest(sorted, k);
    sorted[..k]
  }

  /** A prefix of a sorted sequence is sorted and no later than anything after it. */
  lemma SortedPrefixIsEarliest(sorted: seq<ChatMessage>, k: nat)
    requires SortedByTime(sorted) && k <= |sorted|
    ensures SortedByTime(sorted[..k])
    ensures multiset(sorted[..k]) <= multiset(sorted)
    ensures forall x, i :: x in multiset(sorted) - multiset(sorted[..k]) && 0 <= i < k ==> sorted[..k][i].timestamp <= x.timestamp
  {
    var r := sorted[..k];
    assert multiset(r) <= multiset(sorted) by {
      assert sorted == r + sorted[k..];
    }
    forall x, i | x in multiset(sorted) - multiset(r) && 0 <= i < k
      ensures r[i].timestamp <= x.timestamp
    {
      var j := DroppedAfterCut(sorted, k, x);
      assert sorted[i] == r[i];
    }
  }

  /** What a prefix of length `k` leaves out sits at some position from `k` on. */
  lemma DroppedAfterCut<T>(s: seq<T>, k: nat, x: T) returns (j: nat)
    requires k <= |s| && x in multiset(s) - multiset(s[..k])
    ensures k <= j < |s| && s[j] == x
  {
    var t := s[k..];
    assert s == s[..k] + t;
    assert multiset(s) == multiset(s[..k]) + multiset(t);
    assert x in multiset(t);
    var i :| 0 <= i < |t| && t[i] == x;
    j := k + i;
  }

  /** The other party of the conversation GET /messages returns: `parseInt(chatWithId)`
      for an admin (`None` when that is `NaN`), the default admin id for anyone else. */
  function Peer(caller: Claims, chatWithId: Option<string>): (r: Option<int>)
    ensures !IsAdmin(caller) ==> r == Some(DefaultAdminId)
    ensures IsAdmin(caller) && !Truthy(chatWithId) ==> r.None?
  {
    if IsAdmin(caller) then ParseInt(if chatWithId.Some? then chatWithId.value else "")
    else Some(DefaultAdminId)
  }

  /** The messages the `$or` query selects, in store order. */
  function Conversation(userId: int, peer: int, store: seq<ChatMessage>): (r: seq<ChatMessage>)
    ensures forall i :: 0 <= i < |r| ==> r[i] in store && Between(r[i], userId, peer)
    ensures forall i :: 0 <= i < |store| && Between(store[i], userId, peer) ==> store[i] in r
  {
    var pair := (m: ChatMessage) => Between(m, userId, peer);
    assert forall m :: pair(m) == Between(m, userId, peer);
    Filter(store, pair)
  }

  /** GET /messages. `findOk` is whether the database query resolves. A `NaN` peer makes
      the query's cast of `receiverId`/`senderId` to a number fail, so `find` rejects and
      the handler answers 500 as for any other database error. */
  function GetMessages(caller: Claims, chatWithId: Option<string>, store: seq<ChatMessage>, findOk: bool): (r: Reply<seq<ChatMessage>>)
    ensures IsAdmin(caller) && !Truthy(chatWithId) ==> r == Fail(BadRequest)
    ensures (!IsAdmin(caller) || Truthy(chatWithId)) && (!findOk || Peer(caller, chatWithId).None?) ==> r == Fail(ServerError)
    ensures (!IsAdmin(caller) || Truthy(chatWithId)) && findOk && Peer(caller, chatWithId).Some? ==>
      r == Ok(200, Earliest(Conversation(caller.userId, Peer(caller, chatWithId).value, store), MessageLimit))
    ensures r.Ok? ==> r.status == 200 && |r.body| <= MessageLimit && SortedByTime(r.body)
  {
    if IsAdmin(caller) && !Truthy(chatWithId) then Fail(BadRequest)
    else match Peer(caller, chatWithId)
      case None => Fail(ServerError)
      case Some(peer) =>
        if !findOk then Fail(ServerError)
        else Ok(200, Earliest(Conversation(caller.userId, peer, store), MessageLimit))
  }

  /** A proper part `r` of `c` that is no later than what it leaves out cannot hold the
      single message of `c` that is later than every other. */
  lemma CutDropsStrictMax(c: seq<ChatMessage>, r: seq<ChatMessage>, m: ChatMessage)
    requires multiset(r) <= multiset(c) && |r| < |c|
    requires forall x, i :: x in multiset(c) - multiset(r) && 0 <= i < |r| ==> r[i].timestamp <= x.timestamp
    requires multiset(c)[m] == 1
    requires forall x :: x in c && x != m ==> x.timestamp < m.timestamp
    ensures m !in r
  {
    var d := multiset(c) - multiset(r);
    assert multiset(c) == multiset(r) + d;
    assert |d| > 0;
    var x :| x in d;
    if x == m {
      assert multiset(r)[m] == 0;
    } else {
      assert x in c;
      forall i | 0 <= i < |r| ensures r[i] != m {
        assert r[i].timestamp <= x.timestamp;
      }
    }
  }

  /** Cutting a thread longer than `limit` oldest first drops a message later than every other. */
  lemma EarliestDropsNewest(c: seq<ChatMessage>, limit: nat, m: ChatMessage)
    requires |c| > limit && multiset(c)[m] == 1
    requires forall x :: x in c && x != m ==> x.timestamp < m.timestamp
    ensures m !in Earliest(c, limit)
  {
    CutDropsStrictMax(c, Earliest(c, limit), m);
  }

  /** As written, a thread longer than the limit loses its newest message: the route sorts
      oldest first and then cuts, so a message later than every other is never returned. */
  lemma NewestDroppedFromLongThread(caller: Claims, chatWithId: Option<string>, store: seq<ChatMessage>, m: ChatMessage)
    requires !IsAdmin(caller)
    requires var c := Conversation(caller.userId, DefaultAdminId, store);
      && |c| > MessageLimit && multiset(c)[m] == 1
      && forall x :: x in c && x != m ==> x.timestamp < m.timestamp
    ensures GetMessages(caller, chatWithId, store, true).Ok?
    ensures m !in GetMessages(caller, chatWithId, store, true).body
  {
    var c := Conversation(caller.userId, DefaultAdminId, store);
    EarliestDropsNewest(c, MessageLimit, m);
    assert GetMessages(caller, chatWithId, store, true) == Ok(200, Earliest(c, MessageLimit));
  }

  /** `.sort({ timestamp: -1 }).limit(limit)` read back oldest first: the latest `limit`
      messages. Every message left out is at least as early as every message kept. */
  function Latest(s: seq<ChatMessage>, limit: nat): (r: seq<ChatMessage>)
    ensures |r| == if |s| < limit then |s| else limit
    ensures SortedByTime(r)
    ensures multiset(r) <= multiset(s)
    ensures forall x, i :: x in multiset(s) - multiset(r) && 0 <= i < |r| ==> x.timestamp <= r[i].timestamp
  {
    var sorted := SortByTime(s);
    var k := if |s| < limit then |s| else limit;
    SortedSuffixIsLatest(sorted, |s| - k);
    sorted[|s| - k..]
  }

  /** A suffix of a sorted sequence is sorted and no earlier than anything before it. */
  lemma SortedSuffixIsLatest(sorted: seq<ChatMessage>, k: nat)
    requires SortedByTime(sorted) && k <= |sorted|
    ensures SortedByTime(sorted[k..])
    ensures multiset(sorted[k..]) <= multiset(sorted)
    ensures forall x, i :: x in multiset(sorted) - multiset(sorted[k..]) && 0 <= i < |sorted| - k ==> x.timestamp <= sorted[k..][i].timestamp
  {
    var r := sorted[k..];
    forall a, b | 0 <= a < b < |r| ensures r[a].timestamp <= r[b].timestamp {
      assert r[a] == sorted[k + a] && r[b] == sorted[k + b];
    }
    assert multiset(r) <= multiset(sorted) by {
      assert sorted == sorted[..k] + r;
    }
    forall x, i | x in multiset(sorted) - multiset(r) && 0 <= i < |r|
      ensures x.timestamp <= r[i].timestamp
    {
      var j := DroppedBeforeCut(sorted, k, x);
      assert sorted[k + i] == r[i];
    }
  }

  /** What a suffix from `k` leaves out sits at some position before `k`. */
  lemma DroppedBeforeCut<T>(s: seq<T>, k: nat, x: T) returns (j: nat)
    requires k <= |s| && x in multiset(s) - multiset(s[k..])
    ensures j < k && s[j] == x
  {
    var h := s[..k];
    assert s == h + s[k..];
    assert multiset(s) == multiset(h) + multiset(s[k..]);
    assert x in multiset(h);
    j :| 0 <= j < |h| && h[j] == x;
  }

  /** GET /messages corrected to return the most recent 100 messages of the
      conversation, oldest first. Errors are those of `GetMessages`. */
  function GetRecentMessages(caller: Claims, chatWithId: Option<string>, store: seq<ChatMessage>, findOk: bool): (r: Reply<seq<ChatMessage>>)
    ensures IsAdmin(caller) && !Truthy(chatWithId) ==> r == Fail(BadRequest)
    ensures (!IsAdmin(caller) || Truthy(chatWithId)) && (!findOk || Peer(caller, chatWithId).None?) ==> r == Fail(ServerError)
    ensures (!IsAdmin(caller) || Truthy(chatWithId)) && findOk && Peer(caller, chatWithId).Some? ==>
      r == Ok(200, Latest(Conversation(caller.userId, Peer(caller, chatWithId).value, store), MessageLimit))
    ensures r.Ok? ==> r.status == 200 && |r.body| <= MessageLimit && SortedByTime(r.body)
  {
    if IsAdmin(caller) && !Truthy(chatWithId) then Fail(BadRequest)
    else match Peer(caller, chatWithId)
      case None => Fail(ServerError)
      case Some(peer) =>
        if !findOk then Fail(ServerError)
        else Ok(200, Latest(Conversation(caller.userId, peer, store), MessageLimit))
  }

  /** A non-empty part `r` of `c` that is no earlier than what it leaves out holds the
      message of `c` that is later than every other. */
  lemma CutKeepsStrictMax(c: seq<ChatMessage>, r: seq<ChatMessage>, m: ChatMessage)
    requires multiset(r) <= multiset(c) && |r| > 0
    requires forall x, i :: x in multiset(c) - multiset(r) && 0 <= i < |r| ==> x.timestamp <= r[i].timestamp
    requires m in c
    requires forall x :: x in c && x != m ==> x.timestamp < m.timestamp
    ensures m in r
  {
    assert m in multiset(c) - multiset(r) ==> m.timestamp <= r[0].timestamp;
    assert r[0] in multiset(c);
  }

  /** Keeping the latest `limit > 0` messages keeps one later than every other. */
  lemma LatestKeepsNewest(c: seq<ChatMessage>, limit: nat, m: ChatMessage)
    requires limit > 0 && m in c
    requires forall x :: x in c && x != m ==> x.timestamp < m.timestamp
    ensures m in Latest(c, limit)
  {
    var r := Latest(c, limit);
    assert |r| > 0;
    CutKeepsStrictMax(c, r, m);
  }

  /** With the most-recent rule the newest message of a thread is always returned. */
  lemma RecentKeepsNewest(caller: Claims, chatWithId: Option<string>, store: seq<ChatMessage>, m: ChatMessage)
    requires !IsAdmin(caller)
    requires var c := Conversation(caller.userId, DefaultAdminId, store);
      m in c && forall x :: x in c && x != m ==> x.timestamp < m.timestamp
    ensures GetRecentMessages(caller, chatWithId, store, true).Ok?
    ensures m in GetRecentMessages(caller, chatWithId, store, true).body
  {
    var c := Conversation(caller.userId, DefaultAdminId, store);
    LatestKeepsNewest(c, MessageLimit, m);
    assert GetRecentMessages(caller, chatWithId, store, true) == Ok(200, Latest(c, MessageLimit));
  }

  /** A non-admin only ever sees its thread with the default admin, and sees all of it
      while that thread holds at most 100 messages. */
  lemma NonAdminSeesDefaultAdminThread(caller: Claims, chatWithId: Option<string>, store: seq<ChatMessage>)
    requires !IsAdmin(caller)
    ensures var r := GetMessages(caller, chatWithId, store, true);
      && r.Ok?
      && (forall i :: 0 <= i < |r.body| ==> r.body[i] in store && Between(r.body[i], caller.userId, DefaultAdminId))
      && (|Conversation(caller.userId, DefaultAdminId, store)| <= MessageLimit ==>
            forall m :: m in store && Between(m, caller.userId, DefaultAdminId) ==> m in r.body)
  {
    var c := Conversation(caller.userId, DefaultAdminId, store);
    var r := GetMessages(caller, chatWithId, store, true);
    forall i | 0 <= i < |r.body| ensures r.body[i] in store && Between(r.body[i], caller.userId, DefaultAdminId) {
      assert r.body[i] in multiset(r.body);
      assert r.body[i] in multiset(c);
    }
    if |c| <= MessageLimit {
      forall m | m in store && Between(m, caller.userId, DefaultAdminId) ensures m in r.body {
        var j :| 0 <= j < |store| && store[j] == m;
        assert m in c;
        assert multiset(r.body) <= multiset(c) && |multiset(r.body)| == |multiset(c)|;
        MultisetSubEqual(multiset(r.body), multiset(c));
        assert m in multiset(r.body);
      }
    }
  }

  lemma MultisetSubEqual<T>(a: multiset<T>, b: multiset<T>)
    requires a <= b && |a| == |b|
    ensures a == b
  {
    var d := b - a;
    assert b == a + d;
    assert |d| == 0;
  }

  /** An admin asking for `?chatWithId=<n>` gets messages of its thread with user `n` only. */
  lemma AdminSeesRequestedThread(caller: Claims, n: nat, store: seq<ChatMessage>)
    requires IsAdmin(caller)
    ensures var r := GetMessages(caller, Some(NatToString(n)), store, true);
      && r.Ok?
      && (forall i :: 0 <= i < |r.body| ==> r.body[i] in store && Between(r.body[i], caller.userId, n))
  {
    ParseIntOfNatToString(n);
    var c := Conversation(caller.userId, n, store);
    var r := GetMessages(caller, Some(NatToString(n)), store, true);
    forall i | 0 <= i < |r.body| ensures r.body[i] in store && Between(r.body[i], caller.userId, n) {
      assert r.body[i] in multiset(r.body);
      assert r.body[i] in multiset(c);
    }
  }

  predicate Involves(m: ChatMessage, admin: int) {
    m.senderId == admin || m.receiverId == admin
  }

  /** The `$project` step: the receiver when the admin sent the message, the sender otherwise. */
  function Partner(m: ChatMessage, admin: int): (r: int)
    ensures Involves(m, admin) ==> Between(m, admin, r)
  {
    if m.senderId == admin then m.receiverId else m.senderId
  }

  /** `p` is the partner of `admin` in some message of `store` that involves `admin`. */
  predicate IsPartner(store: seq<ChatMessage>, admin: int, p: int) {
    exists j :: 0 <= j < |store| && Involves(store[j], admin) && Partner(store[j], admin) == p
  }

  /** The `$match`/`$project`/`$group` pipeline: every conversation partner of `admin`,
      each once, in order of first appearance. */
  function PartnerIds(store: seq<ChatMessage>, admin: int): (r: seq<int>)
    ensures NoDuplicates(r)
    ensures forall i :: 0 <= i < |r| ==> IsPartner(store, admin, r[i])
    ensures forall j :: 0 <= j < |store| && Involves(store[j], admin) ==> Partner(store[j], admin) in r
    decreases |store|
  {
    if store == [] then []
    else
      var init := store[..|store| - 1];
      var m := store[|store| - 1];
      var rest := PartnerIds(init, admin);
      var r := if Involves(m, admin) && Partner(m, admin) !in rest then rest + [Partner(m, admin)] else rest;
      PartnerStep(store, init, admin, rest, r);
      r
  }

  /** One step of the `$group`: adding the partner of the last message unless it is
      already listed keeps the list duplicate-free, made of partners, and complete. */
  lemma PartnerStep(store: seq<ChatMessage>, init: seq<ChatMessage>, admin: int, rest: seq<int>, r: seq<int>)
    requires |store| > 0 && init == store[..|store| - 1]
    requires NoDuplicates(rest)
    requires forall i :: 0 <= i < |rest| ==> IsPartner(init, admin, rest[i])
    requires forall j :: 0 <= j < |init| && Involves(init[j], admin) ==> Partner(init[j], admin) in rest
    requires var m := store[|store| - 1];
      r == if Involves(m, admin) && Partner(m, admin) !in rest then rest + [Partner(m, admin)] else rest
    ensures NoDuplicates(r)
    ensures forall i :: 0 <= i < |r| ==> IsPartner(store, admin, r[i])
    ensures forall j :: 0 <= j < |store| && Involves(store[j], admin) ==> Partner(store[j], admin) in r
  {
    var last := |store| - 1;
    forall i | 0 <= i < |r|
      ensures IsPartner(store, admin, r[i])
    {
      if i < |rest| {
        assert IsPartner(init, admin, rest[i]);
        var j :| 0 <= j < |init| && Involves(init[j], admin) && Partner(init[j], admin) == rest[i];
        assert store[j] == init[j] && r[i] == rest[i];
      } else {
        assert Involves(store[last], admin) && Partner(store[last], admin) == r[i];
      }
    }
    forall j | 0 <= j < |store| && Involves(store[j], admin) ensures Partner(store[j], admin) in r {
      if j < last {
        assert store[j] == init[j];
      }
    }
  }

  /** GET /chat-users: 403 for a non-admin; otherwise the directory rows of the admin's
      conversation partners. `dbOk` is whether both queries resolve. */
  function ChatUsers(caller: Claims, store: seq<ChatMessage>, directory: seq<UserRow>, dbOk: bool): (r: Reply<seq<UserRow>>)
    ensures !IsAdmin(caller) ==> r == Fail(Forbidden)
    ensures IsAdmin(caller) && !dbOk ==> r == Fail(ServerError)
    ensures IsAdmin(caller) && dbOk ==> r.Ok? && r.status == 200
    ensures r.Ok? ==> forall i :: 0 <= i < |r.body| ==>
      r.body[i] in directory && IsPartner(store, caller.userId, r.body[i].id)
    ensures r.Ok? ==> forall j, k ::
      (0 <= j < |store| && 0 <= k < |directory| && Involves(store[j], caller.userId)
       && directory[k].id == Partner(store[j], caller.userId)) ==> directory[k] in r.body
    ensures r.Ok? && NoDuplicates(directory) ==> NoDuplicates(r.body)
  {
    if !IsAdmin(caller) then Fail(Forbidden)
    else if !dbOk then Fail(ServerError)
    else
      var ids := PartnerIds(store, caller.userId);
      FilterNoDuplicates(directory, (u: UserRow) => u.id in ids);
      Ok(200, Filter(directory, (u: UserRow) => u.id in ids))
  }

  /** The JSON body of POST /messages; a `senderId` in it is ignored. */
  datatype PostBody = PostBody(senderId: Option<int>, receiverId: Option<int>, message: Option<string>)

  /** POST /messages: 400 unless `receiverId` and `message` are truthy; otherwise one record
      is stored whose sender is the authenticated user, and 201 returns it. */
  method PostMessage(store: MessageStore, caller: Claims, body: PostBody, now: int, saveOk: bool) returns (r: Reply<ChatMessage>)
    modifies store
    ensures !TruthyNum(body.receiverId) || !Truthy(body.message) ==>
      r == Fail(BadRequest) && store.messages == old(store.messages)
    ensures TruthyNum(body.receiverId) && Truthy(body.message) ==>
      var m := ChatMessage(caller.userId, body.receiverId.value, body.message.value, now);
      && (saveOk ==> r == Ok(201, m) && store.messages == old(store.messages) + [m])
      && (!saveOk ==> r == Fail(ServerError) && store.messages == old(store.messages))
  {
    if !TruthyNum(body.receiverId) || !Truthy(body.message) {
      return Fail(BadRequest);
    }
    var rec := NewRecord(Some(caller.userId), body.receiverId, body.message, now);
    var saved := store.Save(rec.value, saveOk);
    if saved {
      r := Ok(201, rec.value);
    } else {
      r := Fail(ServerError);
    }
  }
}
