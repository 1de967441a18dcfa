# Event app backend and client logic, modelled in Dafny

This project models the core of a mobile events app with a live support chat:

- **Live chat relay** (`backend/livechat/chat.socket.js`). Connections are authenticated
  by a token at connect time. Each user id maps to its latest socket. Admin sockets form
  an insertion-ordered set. Users who have written are tracked as active, and every
  connected admin receives the roster of those users. A user's message goes to all
  admins; an admin's message goes to the socket of its receiver, if that receiver is
  connected. Emissions are appended to a log instead of being written to sockets.
- **Chat REST routes** (`backend/livechat/chat.routes.js`, record schema in
  `chat.model.js`). The conversation history is filtered, sorted oldest first and cut to
  100 messages, so a longer thread returns its 100 earliest messages. Admins can list their conversation partners. A message can also be
  posted over HTTP.
- **Event handlers** (`backend/events/event.controller.js`). Create checks its fields,
  search is case-blind, and get/update/delete answer 404 for an unknown id. Update
  keeps a field unless the body supplies a truthy value for it.
- **Client helpers**: the event-list filter and count label (`mobile/app/events-new.js`),
  category icons and colours (`mobile/app/categories.js`), and the image URL, date
  placeholders, ticket table and booking guard of the event details screen
  (`mobile/app/eventDetails.tsx`).

Files: `wrappers.dfy` (Option/Result), `seqs.dfy` (order-preserving filter,
subsequences), `text.dfy` (JavaScript string operations), `js.dfy` (truthiness,
`String(n)`, `parseInt`), `http.dfy` (reply statuses), `chat_store.dfy`,
`chat_socket.dfy`, `chat_scenarios.dfy`, `chat_routes.dfy`, `event_controller.dfy`,
`events_new.dfy`, `categories.dfy`, `event_details.dfy`.

State that the JavaScript changes in place is kept as classes:
- `ChatSocket.Relay` holds `userSockets`, `adminSockets`, `activeUsers` and the
  emission log.
- `ChatStore.MessageStore` is the message collection.
- `EventController.EventTable` is the events table.

Whether a database call resolves, and what `jwt.verify` answers, are parameters of the
operations.

## Model

| member | source | states |
|---|---|---|
| ChatStore.NewRecord | backend/livechat/chat.model.js:5-22 | a record exists exactly when sender, receiver and a non-empty message are all present, and it carries those values |
| ChatStore.MessageStore.Save | backend/livechat/chat.socket.js:78 | a successful save appends the record; a failed save leaves the store as it was |
| ChatSocket.Authenticate | backend/livechat/chat.socket.js:11-21 | a missing or empty token is refused as "no token"; a token the verifier rejects is refused as "invalid token"; a token the verifier accepts is accepted with exactly the verifier's claims |
| ChatSocket.Roster | backend/livechat/chat.socket.js:26-34 | the roster holds exactly the directory rows of active users, as an order-preserving subsequence of the directory and without duplicates |
| ChatSocket.Broadcast | backend/livechat/chat.socket.js:37-39 | one emission per target socket, in target order, all carrying the same event |
| ChatSocket.BroadcastReachesEachOnce | backend/livechat/chat.socket.js:37-39 | a broadcast over a duplicate-free set of sockets reaches each member once and nothing else |
| ChatSocket.AdminMessageDelivery | backend/livechat/chat.socket.js:88-96 | an admin's message is emitted once to the receiver's mapped socket, and to no socket when the receiver is not connected |
| ChatSocket.UserMessageDelivery | backend/livechat/chat.socket.js:97-103 | a user's message is emitted exactly once to every admin socket and never to any other socket |
| ChatSocket.RosterPush | backend/livechat/chat.socket.js:24-43 | after a successful lookup, one roster emission per admin socket, in admin order, each carrying the roster of active users; nothing when the lookup fails |
| ChatSocket.Route | backend/livechat/chat.socket.js:87-103 | every emission carries the message; an admin's message makes at most one, addressed to the socket mapped to its receiver; a user's message makes one per admin socket, in admin order |
| ChatSocket.RosterPushReachesAdminsOnly | backend/livechat/chat.socket.js:24-43 | the roster reaches every admin once and no user socket, and nothing is sent when the directory lookup fails |
| ChatSocket.Remove | backend/livechat/chat.socket.js:119 | deleting an admin socket removes it and keeps every other admin socket |
| ChatSocket.RemoveAbsent | backend/livechat/chat.socket.js:119 | deleting a socket that is not in the set changes nothing |
| ChatSocket.Relay.constructor | backend/livechat/chat.socket.js:5-7 | the relay starts with no mappings, no admins, no active users and an empty log |
| ChatSocket.Relay.EmitToAdmins | backend/livechat/chat.socket.js:37-39 | the loop appends exactly one emission per admin socket, in set order |
| ChatSocket.Relay.SendUserListToAdmins | backend/livechat/chat.socket.js:24-43 | the log grows by the roster push to the admins, or not at all when the lookup fails |
| ChatSocket.Relay.Register | backend/livechat/chat.socket.js:45-58 | an admin socket joins the admin set and triggers one roster push; a user socket replaces any earlier mapping of its id; admin and user sockets stay disjoint |
| ChatSocket.Relay.Connect | backend/livechat/chat.socket.js:11-21 | only an authenticated attempt registers; a refused attempt leaves every piece of state unchanged |
| ChatSocket.Relay.OnChatMessage | backend/livechat/chat.socket.js:61-107 | the message is saved first; on failure nothing else changes; after a user's save, the sender becomes active, the roster is pushed and the message goes to every admin; after an admin's save, the message goes to the receiver's socket only |
| ChatSocket.Relay.OnGetUserList | backend/livechat/chat.socket.js:110-114 | an admin's request pushes the roster; a user's request changes nothing |
| ChatSocket.Relay.OnDisconnect | backend/livechat/chat.socket.js:117-125 | an admin's socket leaves the admin set; a user's id mapping is deleted whatever socket it points at now; a repeated disconnect changes nothing |
| ChatSocket.Relay.OnDisconnectGuarded | backend/livechat/chat.socket.js:117-125 | corrected cleanup: a user's mapping is deleted only while it still points at the closing socket |
| ChatScenarios.UserWritesBeforeAnyAdmin | backend/livechat/chat.socket.js:49-103 | a message written while no admin is connected is stored and delivered to nobody; an admin who connects later receives the roster naming the writer |
| ChatScenarios.ThreeAdminsOneUser | backend/livechat/chat.socket.js:97-103 | with three admins connected, a user's message is emitted three times, once to each admin, and never to the user |
| ChatScenarios.StaleDisconnectDropsLiveUser | backend/livechat/chat.socket.js:122 | as written, the close of a superseded socket unmaps the user, so an admin's later reply is stored but delivered to no socket |
| ChatScenarios.GuardedDisconnectKeepsLiveUser | backend/livechat/chat.socket.js:117-125 | with the guarded cleanup, the same reply reaches the user's newer socket |
| ChatRoutes.InsertBehindHead | backend/livechat/chat.routes.js:35 | a message later than the head of a sorted thread, inserted into the tail, leaves the thread sorted with exactly that message added |
| ChatRoutes.InsertByTime | backend/livechat/chat.routes.js:35 | inserting into a time-sorted thread keeps it sorted and adds exactly the one message |
| ChatRoutes.SortByTime | backend/livechat/chat.routes.js:35 | ascending timestamp order, same messages with the same multiplicities |
| ChatRoutes.Earliest | backend/livechat/chat.routes.js:35 | at most the limit, sorted, drawn from the input, and no message left out is earlier than one kept |
| ChatRoutes.SortedPrefixIsEarliest | backend/livechat/chat.routes.js:35 | a prefix of a sorted thread is sorted and no later than anything after it |
| ChatRoutes.Peer | backend/livechat/chat.routes.js:13-33 | anyone but an admin talks to the default admin 1; an admin with a missing or empty `chatWithId` has no numeric peer |
| ChatRoutes.Conversation | backend/livechat/chat.routes.js:18-33 | exactly the stored messages between the caller and its peer in either direction |
| ChatRoutes.GetMessages | backend/livechat/chat.routes.js:8-42 | an admin without a truthy `chatWithId` gets 400; a non-numeric `chatWithId` (NaN, which the query cannot cast) or a failed query gets 500; otherwise 200 with the earliest 100 messages of the conversation, oldest first |
| ChatRoutes.CutDropsStrictMax | backend/livechat/chat.routes.js:35 | a proper part of a thread that is no later than what it leaves out cannot hold the one message later than all others |
| ChatRoutes.EarliestDropsNewest | backend/livechat/chat.routes.js:35 | cutting a thread longer than the limit oldest first drops its newest message |
| ChatRoutes.NewestDroppedFromLongThread | backend/livechat/chat.routes.js:35 | as written, a thread of more than 100 messages is answered without its newest message |
| ChatRoutes.Latest | backend/livechat/chat.routes.js:35 | corrected cut: at most the limit, sorted, drawn from the input, and no message left out is later than one kept |
| ChatRoutes.SortedSuffixIsLatest | backend/livechat/chat.routes.js:35 | a suffix of a sorted thread is sorted and no earlier than anything before it |
| ChatRoutes.DroppedAfterCut | backend/livechat/chat.routes.js:35 | a message a prefix leaves out sits at or after the cut |
| ChatRoutes.DroppedBeforeCut | backend/livechat/chat.routes.js:35 | a message a suffix leaves out sits before the cut |
| ChatRoutes.GetRecentMessages | backend/livechat/chat.routes.js:8-42 | corrected route: the same 400 and 500 answers as `GetMessages`, otherwise 200 with the most recent 100 messages of the conversation, oldest first |
| ChatRoutes.CutKeepsStrictMax | backend/livechat/chat.routes.js:35 | a non-empty part of a thread that is no earlier than what it leaves out holds the message later than all others |
| ChatRoutes.LatestKeepsNewest | backend/livechat/chat.routes.js:35 | keeping the latest messages always keeps the newest one |
| ChatRoutes.RecentKeepsNewest | backend/livechat/chat.routes.js:35 | with the corrected route, the newest message of a thread is always returned |
| ChatRoutes.NonAdminSeesDefaultAdminThread | backend/livechat/chat.routes.js:24-33 | a non-admin only sees its thread with admin id 1, and sees all of it while the thread holds at most 100 messages |
| ChatRoutes.MultisetSubEqual | backend/livechat/chat.routes.js:35 | a sub-multiset of equal size is the whole multiset, so an unlimited result keeps every message |
| ChatRoutes.AdminSeesRequestedThread | backend/livechat/chat.routes.js:13-23 | an admin asking for `chatWithId=<n>` sees only its thread with user n |
| ChatRoutes.Partner | backend/livechat/chat.routes.js:63-71 | for a message involving the admin, the message runs between the admin and the partner |
| ChatRoutes.PartnerIds | backend/livechat/chat.routes.js:53-81 | every conversation partner of the admin appears exactly once, and only partners appear |
| ChatRoutes.PartnerStep | backend/livechat/chat.routes.js:53-81 | grouping one more message keeps the partner list duplicate-free, made only of partners, and complete |
| ChatRoutes.ChatUsers | backend/livechat/chat.routes.js:45-92 | 403 for a non-admin, 500 on a database failure, otherwise exactly the directory rows of the admin's partners |
| ChatRoutes.PostMessage | backend/livechat/chat.routes.js:95-117 | 400 and no write unless receiver and message are truthy; otherwise one record with the authenticated sender is stored and returned with 201, or 500 when saving fails |
| Js.NatToString | mobile/app/events-new.js:242 | `String(n)` of a count: decimal digits without a leading zero |
| Js.DigitRunOfDigitsThen | backend/livechat/chat.routes.js:20-21 | the digit run of digits followed by a non-digit ends at the non-digit |
| Js.DigitsValueOfNatToString | backend/livechat/chat.routes.js:20-21 | the printed digits of n denote n |
| Js.ParseIntOfNatToStringThen | backend/livechat/chat.routes.js:20-21 | `parseInt` of a printed number followed by a space or nothing reads the number back |
| Js.ParseInt | backend/livechat/chat.routes.js:20-21 | a blank string is NaN, a string whose first non-blank character is neither a sign nor a digit is NaN, and a negative result needs a leading minus sign; what it reads back from a printed count is pinned by `ParseIntOfNatToString` and `ParseIntOfNatToStringThen` |
| Js.ParseIntOfNatToString | backend/livechat/chat.routes.js:20-21 | `parseInt(String(n))` is n |
| Text.Trim | backend/events/event.controller.js:46-50 | the result is a slice of the input whose cut-off ends are whitespace only; it has no leading or trailing whitespace, and it is empty exactly when the input is whitespace only |
| Text.TrimmedSlice | backend/events/event.controller.js:46-50 | cutting a whitespace prefix and then a whitespace suffix leaves a slice with blank ends, empty exactly when the input is blank |
| Text.Lower | mobile/app/events-new.js:82-83 | ASCII lower-casing keeps the length and lower-cases each letter in place |
| Text.ContainsIgnoreCaseIsCaseBlind | mobile/app/events-new.js:82-83 | case-blind matching, as the screen's lower-cased `includes` and the `ILIKE` search (backend/events/event.controller.js:56-57) use it, is unchanged by lower-casing either side, and an exact occurrence always matches |
| Text.IndexOf | mobile/app/eventDetails.tsx:95 | the first position where the pattern occurs, or none when it occurs nowhere |
| Text.ReplaceFirst | mobile/app/eventDetails.tsx:95 | only the first occurrence is replaced, and the rest of the string is kept |
| Seqs.Filter | mobile/app/events-new.js:74-84 | the kept elements are exactly the input elements that pass, each as often as in the input, and never more than the input |
| Seqs.FilterIsSubsequence | mobile/app/events-new.js:70-87 | a filter keeps the order of its input |
| Seqs.FilterFilter | mobile/app/events-new.js:70-87 | two filters in a row are one filter by the conjunction |
| Seqs.FilterAll | mobile/app/events-new.js:70-87 | a filter every element passes returns its input |
| Seqs.FilterNoDuplicates | backend/livechat/chat.socket.js:28-34 | a filter of a duplicate-free sequence is duplicate-free |
| EventController.Merge | backend/events/event.controller.js:110-115 | each of the six fields takes the body's value when that is truthy and keeps the old value otherwise; the id never changes |
| EventController.MergeKeepsTruthy | backend/events/event.controller.js:110-115 | for typed (JSON) bodies, an update can never set a field to 0 or "" |
| EventController.MergeEmptyAndIdempotent | backend/events/event.controller.js:110-115 | an empty body changes nothing, and applying a body twice equals applying it once |
| EventController.FindIndex | backend/events/event.controller.js:87 | the first row with the id, or none when no row has it |
| EventController.GetEventById | backend/events/event.controller.js:84-97 | 404 exactly when no row has the id, otherwise that row with 200; 500 on a database failure |
| EventController.AllEvents | backend/events/event.controller.js:30-37 | a pass-through of the table: every row in table order, or 500 |
| EventController.EventsByCategory | backend/events/event.controller.js:71-81 | exactly the rows of that category, in table order, or 500 |
| EventController.SearchEvents | backend/events/event.controller.js:40-68 | 400 for a missing or blank query; otherwise exactly the rows whose name or location contains the trimmed query, ignoring case, in table order |
| EventController.RemoveAtKeepsIds | backend/events/event.controller.js:135 | removing one row keeps the remaining ids in range and pairwise distinct |
| EventController.RemoveAtIsFilter | backend/events/event.controller.js:135 | with unique ids, removing the row at a position removes exactly the rows with its id |
| EventController.EventTable.constructor | backend/events/event.controller.js:14-21 | the table starts empty; ids, which the `Event.create` call leaves to the database's auto-increment column, start at 1 by the model's choice |
| EventController.EventTable.Create | backend/events/event.controller.js:5-28 | 400 and no change unless name, date, location, price, category and uploaded file name are all truthy; otherwise one row with a fresh id is appended and returned with 201 and the id counter advances by one, so an id is never handed out twice; or 500 with no change |
| EventController.EventTable.Update | backend/events/event.controller.js:100-123 | 404 and no change for an unknown id; otherwise the row with that id becomes its merge with the body and nothing else changes; ids stay unique |
| EventController.EventTable.Delete | backend/events/event.controller.js:126-141 | 404 and no change for an unknown id; otherwise exactly the row with that id is removed |
| EventsNew.FilterEvents | mobile/app/events-new.js:69-88 | the shown list is no longer than the events and holds only events from it (exactly the visible ones, in order, by the next row) |
| EventsNew.FilterEventsIsVisibleSubsequence | mobile/app/events-new.js:69-88 | the list is an order-preserving subsequence of the events, holding exactly those that pass the category and text tests that are switched on |
| EventsNew.FilterEventsIsOneFilter | mobile/app/events-new.js:70-87 | the chained filters equal one filter by the combined visibility test |
| EventsNew.NoFilterShowsAll | mobile/app/events-new.js:73-80 | with `All` selected and a blank query every event is listed |
| EventsNew.CountWords | mobile/app/events-new.js:242 | the words start with a space, and read " event found" exactly when the count is 1 |
| EventsNew.ResultsLabel | mobile/app/events-new.js:242 | the label is the count followed directly by "event found" for exactly one event and "events found" otherwise, with nothing in between |
| EventsNew.ResultsLabelCount | mobile/app/events-new.js:242 | a consistency check of `NatToString`, not a behaviour of the screen: the number at the head of the label reads back as the count |
| Categories.CategoryIcon | mobile/app/categories.js:50-63 | the icon is `grid` or one of the ten keyword icons |
| Categories.IconOfLowered | mobile/app/categories.js:52-62 | the keyword chain yields `grid` or one of the keyword icons |
| Categories.FirstMatchIsDefault | mobile/app/categories.js:52-62 | the icon is `grid` exactly when no keyword of the table occurs in the name |
| Categories.FirstMatchIsFirst | mobile/app/categories.js:52-62 | an icon other than `grid` belongs to a keyword that occurs, and no keyword earlier in table order occurs |
| Categories.IconIsFirstMatch | mobile/app/categories.js:50-63 | the icon is the first keyword match on the lower-cased name, in the order music, sport, food, art, tech, business, education, health, entertainment, social |
| Categories.IconIgnoresCase | mobile/app/categories.js:51 | lower-casing the name first does not change the icon |
| Categories.PartyIsArt | mobile/app/categories.js:55 | matching is by substring, so "Party" gets the art icon |
| Categories.CategoryColor | mobile/app/categories.js:65-72 | the colour is always one of the twelve palette entries |
| Categories.CategoryColorPeriod | mobile/app/categories.js:71 | colours repeat every twelve cards, and cards fewer than twelve apart differ |
| EventDetails.ImageUrl | mobile/app/eventDetails.tsx:92-96 | no URL for a missing or empty path; an `http` path unchanged; otherwise exactly the API base without its first `/api`, then `/uploads/`, then the path |
| EventDetails.ImageUrlUnderHost | mobile/app/eventDetails.tsx:95 | for an API base of the form host + `/api`, a file is served from host + `/uploads/` |
| EventDetails.FormatDate | mobile/app/eventDetails.tsx:98-106 | a missing date reads "No date"; a present one is rendered |
| EventDetails.FormatTime | mobile/app/eventDetails.tsx:108-114 | a missing date gives the empty string; a present one is rendered |
| EventDetails.BasePrice | mobile/app/eventDetails.tsx:47 | a missing or zero price counts as 0 |
| EventDetails.TicketTypes | mobile/app/eventDetails.tsx:43-65 | three tickets with ids normal, premium and vip; the normal ticket costs the event's base price, premium 1.5 times and vip 2.5 times that |
| EventDetails.FindTicket | mobile/app/eventDetails.tsx:122 | the returned ticket is in the table and has the selected id; none exactly when no ticket has it |
| EventDetails.TicketLookup | mobile/app/eventDetails.tsx:43-65 | exactly the ids normal, premium and vip find a ticket, each its own entry |
| EventDetails.BookTicket | mobile/app/eventDetails.tsx:116-137 | without a selection only the prompt is shown; with one the confirmation names the looked-up ticket |
| EventDetails.BookingNamesListedTicket | mobile/app/eventDetails.tsx:116-125 | a listed selection always reaches a confirmation naming that ticket |

## Left out

- Token checking: signature and expiry checks of `jwt.verify` are a function parameter; the secret is not modelled.
- Databases: MongoDB and the relational database are in-memory sequences. Success or failure of each call is a boolean parameter. One flag covers a handler whose several awaited calls can each throw.
- Socket transport: socket.io rooms and delivery are an append-only emission log. Logging to the console is dropped.
- Interleaving: each handler is one atomic step. Interleaving of `await`s between handlers is not modelled.
- Timestamps: `Date.now` defaults become an integer the caller supplies.
- ChatStore.NewRecord: the only validation modelled is that required fields must be present and the message non-empty. Mongoose's casting of the payload's values to numbers and strings is not modelled; values arrive already typed.
- ChatRoutes.GetMessages: ties between equal timestamps are broken by insertion order, while the database leaves their order unspecified. The query object goes to an implicitly global variable, which is harmless without interleaving and is not modelled. A `chatWithId` given several times (an array) is not modelled.
- Js.ParseInt: the precision loss of numbers beyond 2^53 is not modelled.
- EventController.SearchEvents: `%` and `_` inside the query are treated as plain characters, not as `ILIKE` wildcards.
- EventController.EventTable.Create, EventController.EventTable.Update, EventController.Merge: `price` and `categoryId` are modelled as integers, as a JSON body carries them. A multipart request (the only kind that can carry the photo, so the only kind that can create) hands every text field over as a string, so `"0"` passes the truthiness guard and an event can be created or updated with price or category 0; that string form is not modelled. Validation beyond truthiness (types, foreign keys) is not modelled either. File upload storage is not modelled; only the stored file name enters.
- EventController.EventTable.Create: a failed insert leaves the id counter unchanged, whereas a database sequence would usually consume the id; either way an id is never handed out twice.
- EventController.EventsByCategory, EventController.GetEventById, EventController.EventTable.Update, EventController.EventTable.Delete: the route parameter is taken as an already converted integer. A non-numeric `:id` or `:categoryId`, which the database refuses so that the handler answers 500 rather than 404, is not modelled.
- Lower-casing: `toLowerCase` covers ASCII letters only; full Unicode case mapping is not modelled.
- EventDetails.TicketTypes: prices are exact reals; the floating-point rounding of `* 1.5` and `* 2.5` is not modelled.
- EventDetails.FormatDate, EventDetails.FormatTime: locale rendering of a present date is a function parameter, and invalid date strings are not modelled.
- Screens: rendering, navigation, animation, alerts and data fetching on the mobile screens are left out; only the logic listed above is modelled.

## Findings

| source | as written | input that shows it | evidently intended | confidence | as-written member | corrected member |
|---|---|---|---|---|---|---|
| backend/livechat/chat.routes.js:35 | the thread is sorted oldest first and then cut to 100, so a longer thread returns its 100 earliest messages | a thread of 101 messages with distinct timestamps: the newest one is not returned | the 100 most recent messages, oldest first | not executed | ChatRoutes.NewestDroppedFromLongThread | ChatRoutes.GetRecentMessages |
| backend/livechat/chat.socket.js:122 | a user's disconnect deletes the mapping of its user id whatever socket it now points at | user 7 connects on `old`, reconnects on `new` while `old` is open, then `old` closes; an admin replies to 7 | a superseded socket's close leaves the newer mapping alone, so the reply reaches `new` | not executed | ChatScenarios.StaleDisconnectDropsLiveUser | ChatSocket.Relay.OnDisconnectGuarded |
